/** The computations inside the chart code: the brightness of a fill colour,
    and the per-project XP table the bar chart draws. */
module Charts {
  import opened Wrappers
  import opened Strings
  import opened Records

  // ---------------------------------------------------------------------
  // Colour brightness
  // ---------------------------------------------------------------------

  predicate IsHexDigit(c: char)
  {
    ('0' <= c <= '9') || ('a' <= c <= 'f') || ('A' <= c <= 'F')
  }

  /** The value of one hexadecimal digit, either case. */
  function HexDigitValue(c: char): (v: nat)
    requires IsHexDigit(c)
    ensures v < 16
  {
    if '0' <= c <= '9' then c as int - '0' as int
    else if 'a' <= c <= 'f' then c as int - 'a' as int + 10
    else c as int - 'A' as int + 10
  }

  function Pow16(n: nat): nat
  {
    if n == 0 then 1 else 16 * Pow16(n - 1)
  }

  /** `parseInt(s, 16)` on a string of hexadecimal digits: the digits read
      from the left, most significant first. */
  function ParseHex(s: string): (v: nat)
    requires forall i :: 0 <= i < |s| ==> IsHexDigit(s[i])
    ensures v < Pow16(|s|)
  {
    if s == [] then 0
    else
      var hi := ParseHex(s[..|s| - 1]);
      var d := HexDigitValue(s[|s| - 1]);
      assert hi * 16 + d < Pow16(|s|) by {
        assert hi <= Pow16(|s| - 1) - 1;
        assert hi * 16 <= (Pow16(|s| - 1) - 1) * 16;
      }
      hi * 16 + d
  }

  /** A colour `getBrightness` can read: characters 1 to 6 are hexadecimal
      digits (`#RRGGBB`; the leading character and any tail are ignored). */
  predicate IsHexColor(color: string)
  {
    |color| >= 7 && forall i :: 1 <= i < 7 ==> IsHexDigit(color[i])
  }

  /** The red, green and blue channels: `substr(1,2)`, `substr(3,2)` and
      `substr(5,2)`, each parsed as hexadecimal. */
  function Channels(color: string): (rgb: (nat, nat, nat))
    requires IsHexColor(color)
    ensures rgb.0 <= 255 && rgb.1 <= 255 && rgb.2 <= 255
  {
    (ParseHex(color[1..3]), ParseHex(color[3..5]), ParseHex(color[5..7]))
  }

  /** The weighted channel sum, the numerator of the perceived brightness
      (which is this divided by 1000). */
  function Weighted(r: nat, g: nat, b: nat): (w: nat)
    ensures w == 0 <==> r == 0 && g == 0 && b == 0
    ensures r <= 255 && g <= 255 && b <= 255 ==> w <= 255000
  {
    r * 299 + g * 587 + b * 114
  }

  /** `getBrightness(color) * 1000`. The weights add up to 1000, so the
      numerator stays within 0..255000. */
  function Brightness(color: string): (n: nat)
    requires IsHexColor(color)
    ensures n <= 255000
  {
    var rgb := Channels(color);
    Weighted(rgb.0, rgb.1, rgb.2)
  }

  /** Two digits read as one byte: the first counts sixteen times. */
  lemma ParseHexPair(s: string)
    requires |s| == 2 && IsHexDigit(s[0]) && IsHexDigit(s[1])
    ensures ParseHex(s) == HexDigitValue(s[0]) * 16 + HexDigitValue(s[1])
  {
    assert s[..1][..0] == [];
  }

  /** A colour whose three channels are written with the same two digits. */
  lemma GreyBrightness(color: string, pair: string)
    requires |color| == 7 && |pair| == 2 && IsHexDigit(pair[0]) && IsHexDigit(pair[1])
    requires color[1..3] == pair && color[3..5] == pair && color[5..7] == pair
    ensures IsHexColor(color)
    ensures Brightness(color) == 1000 * (HexDigitValue(pair[0]) * 16 + HexDigitValue(pair[1]))
  {
    assert forall i :: 1 <= i < 7 ==> color[i] == pair[(i - 1) % 2] by {
      assert color[1] == color[1..3][0] && color[2] == color[1..3][1];
      assert color[3] == color[3..5][0] && color[4] == color[3..5][1];
      assert color[5] == color[5..7][0] && color[6] == color[5..7][1];
    }
    ParseHexPair(pair);
  }

  /** Black has brightness 0. */
  lemma BrightnessOfBlack()
    ensures Brightness("#000000") == 0
  {
    var c := "#000000";
    assert |c| == 7;
    assert c[1..3] == "00";
    assert c[3..5] == "00";
    assert c[5..7] == "00";
    GreyBrightness(c, "00");
  }

  /** White, in either case, has the maximum brightness. */
  lemma BrightnessOfWhite()
    ensures Brightness("#ffffff") == 255000
    ensures Brightness("#FFFFFF") == 255000
  {
    var c := "#ffffff";
    assert |c| == 7;
    assert c[1..3] == "ff";
    assert c[3..5] == "ff";
    assert c[5..7] == "ff";
    GreyBrightness(c, "ff");
    var u := "#FFFFFF";
    assert |u| == 7;
    assert u[1..3] == "FF";
    assert u[3..5] == "FF";
    assert u[5..7] == "FF";
    GreyBrightness(u, "FF");
  }

  /** Raising any channel never lowers the brightness. */
  lemma BrightnessMonotone(c1: string, c2: string)
    requires IsHexColor(c1) && IsHexColor(c2)
    requires Channels(c1).0 <= Channels(c2).0
    requires Channels(c1).1 <= Channels(c2).1
    requires Channels(c1).2 <= Channels(c2).2
    ensures Brightness(c1) <= Brightness(c2)
  {
  }

  const Digits: string := "0123456789abcdef"

  /** A byte as two lower-case hexadecimal digits. */
  function HexByte(n: nat): (s: string)
    requires n < 256
    ensures |s| == 2 && IsHexDigit(s[0]) && IsHexDigit(s[1])
  {
    [Digits[n / 16], Digits[n % 16]]
  }

  lemma DigitValue(d: nat)
    requires d < 16
    ensures IsHexDigit(Digits[d]) && HexDigitValue(Digits[d]) == d
  {
  }

  /** Parsing undoes HexByte, so every byte is a readable channel value. */
  lemma ParseHexByte(n: nat)
    requires n < 256
    ensures ParseHex(HexByte(n)) == n
  {
    var s := HexByte(n);
    DigitValue(n / 16);
    DigitValue(n % 16);
    ParseHexPair(s);
  }

  /** Writing three bytes as `#RRGGBB` and reading them back gives the same
      channels. */
  lemma ChannelsRoundTrip(r: nat, g: nat, b: nat)
    requires r < 256 && g < 256 && b < 256
    ensures IsHexColor("#" + HexByte(r) + HexByte(g) + HexByte(b))
    ensures Channels("#" + HexByte(r) + HexByte(g) + HexByte(b)) == (r, g, b)
  {
    HexColorSlices(HexByte(r), HexByte(g), HexByte(b));
    ParseHexByte(r);
    ParseHexByte(g);
    ParseHexByte(b);
  }

  /** The brightness of a colour written from three bytes is their weighted
      sum. */
  lemma BrightnessOfBytes(r: nat, g: nat, b: nat)
    requires r < 256 && g < 256 && b < 256
    ensures Brightness("#" + HexByte(r) + HexByte(g) + HexByte(b)) == Weighted(r, g, b)
  {
    ChannelsRoundTrip(r, g, b);
  }

  /** Where the three pairs of digits sit in `#rrggbb`. */
  lemma HexColorSlices(hr: string, hg: string, hb: string)
    requires |hr| == 2 && |hg| == 2 && |hb| == 2
    ensures ("#" + hr + hg + hb)[1..3] == hr
    ensures ("#" + hr + hg + hb)[3..5] == hg
    ensures ("#" + hr + hg + hb)[5..7] == hb
    ensures forall i :: 1 <= i < 3 ==> ("#" + hr + hg + hb)[i] == hr[i - 1]
    ensures forall i :: 3 <= i < 5 ==> ("#" + hr + hg + hb)[i] == hg[i - 3]
    ensures forall i :: 5 <= i < 7 ==> ("#" + hr + hg + hb)[i] == hb[i - 5]
  {
  }

  // ---------------------------------------------------------------------
  // Per-project XP table of the bar chart
  // ---------------------------------------------------------------------

  /** The bar chart's filter: an `object` with a name that is present, not
      empty, and `includes("")`. */
  predicate HasName(t: Transaction)
    ensures HasName(t) <==> t.name.Some? && t.name.value != []
  {
    t.name.Some? && t.name.value != [] &&
      (assert OccursAt(t.name.value, "", 0); Contains(t.name.value, ""))
  }

  /** `transactions.filter(...)`: the transactions the chart groups. */
  function Kept(txs: seq<Transaction>): (kept: seq<Transaction>)
    ensures |kept| <= |txs|
    ensures forall i :: 0 <= i < |kept| ==> kept[i].name.Some? && kept[i].name.value != []
  {
    if txs == [] then []
    else (if HasName(txs[0]) then [txs[0]] else []) + Kept(txs[1..])
  }

  /** The filter keeps exactly the transactions with a non-empty name, each
      as often as it occurs: the `includes("")` test rejects nothing. */
  lemma {:induction false} KeptCount(txs: seq<Transaction>, t: Transaction)
    ensures multiset(Kept(txs))[t] ==
      if t.name.Some? && t.name.value != [] then multiset(txs)[t] else 0
  {
    if txs != [] {
      KeptCount(txs[1..], t);
      assert txs == [txs[0]] + txs[1..];
      if t.name.Some? {
        assert Contains(t.name.value, "") by {
          assert OccursAt(t.name.value, "", 0);
        }
      }
    }
  }

  /** The filter keeps the order: it distributes over concatenation. */
  lemma {:induction false} KeptAppend(a: seq<Transaction>, b: seq<Transaction>)
    ensures Kept(a + b) == Kept(a) + Kept(b)
  {
    if a != [] {
      assert (a + b)[1..] == a[1..] + b;
      KeptAppend(a[1..], b);
    } else {
      assert a + b == b;
    }
  }

  /** The running state of one project: `{ xp, date }`. */
  datatype Info = Info(xp: int, date: int)

  /** One row of the table: `{ name, xp, date }`. */
  datatype Entry = Entry(name: string, xp: int, date: int)

  predicate AllNamed(txs: seq<Transaction>)
  {
    forall i :: 0 <= i < |txs| ==> txs[i].name.Some?
  }

  predicate Distinct(names: seq<string>)
  {
    forall i, j :: 0 <= i < j < |names| ==> names[i] != names[j]
  }

  /** The names that occur among the transactions. */
  function NamesOf(txs: seq<Transaction>): set<string>
  {
    set i | 0 <= i < |txs| && txs[i].name.Some? :: txs[i].name.value
  }

  /** The transactions named `n`, in order: every copy of each of them and
      nothing else. */
  function Named(txs: seq<Transaction>, n: string): (r: seq<Transaction>)
    ensures forall i :: 0 <= i < |r| ==> r[i].name == Some(n)
  {
    if txs == [] then []
    else Named(txs[..|txs| - 1], n) + (if txs[|txs| - 1].name == Some(n) then [txs[|txs| - 1]] else [])
  }

  /** `Named` keeps every copy of each transaction named `n`, and no other. */
  lemma {:induction false} NamedCount(txs: seq<Transaction>, n: string, t: Transaction)
    ensures multiset(Named(txs, n))[t] == if t.name == Some(n) then multiset(txs)[t] else 0
  {
    if txs != [] {
      var prefix := txs[..|txs| - 1];
      NamedCount(prefix, n, t);
      assert txs == prefix + [txs[|txs| - 1]];
    }
  }

  /** Consistent grouping state: the insertion order lists each key once. */
  ghost predicate WellKeyed(g: (seq<string>, map<string, Info>))
  {
    Distinct(g.0) && forall n :: n in g.1 <==> n in g.0
  }

  /** One turn of the `forEach` loop over `projectMap`: create
      `{ xp: 0, date: createdAt }` on the first sight of the name, add the
      amount, and move the date forward when this transaction is later. */
  function Step(g: (seq<string>, map<string, Info>), t: Transaction): (r: (seq<string>, map<string, Info>))
    requires t.name.Some?
    ensures r.1.Keys == g.1.Keys + {t.name.value}
    ensures (forall m :: m in g.0 ==> m in g.1) ==> forall m :: m in r.0 ==> m in r.1
  {
    var n := t.name.value;
    if n in g.1 then (g.0, g.1[n := Bump(g.1[n], t)])
    else (g.0 + [n], g.1[n := Bump(Info(0, t.createdAt), t)])
  }

  /** The update of one project's entry: add the amount, then keep the later
      of the two dates. */
  function Bump(e: Info, t: Transaction): (r: Info)
    ensures r.xp == e.xp + t.amount
    ensures r.date >= e.date && r.date >= t.createdAt
    ensures r.date == e.date || r.date == t.createdAt
  {
    var e' := e.(xp := e.xp + t.amount);
    if t.createdAt > e'.date then e'.(date := t.createdAt) else e'
  }

  /** The names are exactly those of the transactions. */
  lemma NamesOfSnoc(txs: seq<Transaction>, t: Transaction)
    requires t.name.Some?
    ensures NamesOf(txs + [t]) == NamesOf(txs) + {t.name.value}
  {
    var s := txs + [t];
    assert forall i :: 0 <= i < |txs| ==> s[i] == txs[i];
    forall m | m in NamesOf(s) ensures m in NamesOf(txs) || m == t.name.value {
      var i :| 0 <= i < |s| && s[i].name.Some? && s[i].name.value == m;
      if i < |txs| {
        assert txs[i] == s[i];
      }
    }
    assert s[|txs|] == t;
  }

  /** A name that does not occur names no transaction. */
  lemma NotInNamesOf(txs: seq<Transaction>, n: string)
    requires n !in NamesOf(txs)
    ensures forall i :: 0 <= i < |txs| ==> txs[i].name != Some(n)
    ensures Named(txs, n) == []
  {
    forall i | 0 <= i < |txs| && txs[i].name.Some? ensures txs[i].name.value in NamesOf(txs) {
    }
    NamedEmpty(txs, n);
  }

  lemma {:induction false} NamedEmpty(txs: seq<Transaction>, n: string)
    requires forall i :: 0 <= i < |txs| ==> txs[i].name != Some(n)
    ensures Named(txs, n) == []
  {
    if txs != [] {
      NamedEmpty(txs[..|txs| - 1], n);
    }
  }

  /** The `projectMap` the `forEach` loop leaves after the given
      transactions, together with its keys in insertion order. */
  function Group(kept: seq<Transaction>): (g: (seq<string>, map<string, Info>))
    requires AllNamed(kept)
    ensures forall m :: m in g.0 ==> m in g.1
  {
    if kept == [] then ([], map[])
    else Step(Group(kept[..|kept| - 1]), kept[|kept| - 1])
  }

  /** A turn of the loop keeps each key listed once. */
  lemma StepWellKeyed(g: (seq<string>, map<string, Info>), t: Transaction)
    requires t.name.Some? && WellKeyed(g)
    ensures WellKeyed(Step(g, t))
  {
    var n := t.name.value;
    if n !in g.1 {
      var order := g.0 + [n];
      forall i, j | 0 <= i < j < |order| ensures order[i] != order[j] {
        if j == |g.0| {
          assert order[i] == g.0[i];
        }
      }
    }
  }

  /** The insertion order lists every project exactly once. */
  lemma {:induction false} GroupWellKeyed(kept: seq<Transaction>)
    requires AllNamed(kept)
    ensures WellKeyed(Group(kept))
  {
    if kept != [] {
      GroupWellKeyed(kept[..|kept| - 1]);
      StepWellKeyed(Group(kept[..|kept| - 1]), kept[|kept| - 1]);
    }
  }

  /** The projects are exactly the names among the transactions. */
  lemma {:induction false} GroupKeys(kept: seq<Transaction>)
    requires AllNamed(kept)
    ensures Group(kept).1.Keys == NamesOf(kept)
  {
    if kept != [] {
      var prefix := kept[..|kept| - 1];
      var t := kept[|kept| - 1];
      assert prefix + [t] == kept;
      GroupKeys(prefix);
      NamesOfSnoc(prefix, t);
    }
  }

  /** Group one transaction further. */
  lemma GroupSnoc(kept: seq<Transaction>, i: int)
    requires AllNamed(kept) && 0 <= i < |kept|
    ensures AllNamed(kept[..i]) && AllNamed(kept[..i + 1])
    ensures Group(kept[..i + 1]) == Step(Group(kept[..i]), kept[i])
  {
    assert kept[..i + 1][..i] == kept[..i];
  }

  /** Each project's XP is the sum of the amounts of its transactions. */
  lemma {:induction false} GroupXp(kept: seq<Transaction>, n: string)
    requires AllNamed(kept)
    requires n in Group(kept).1
    ensures Group(kept).1[n].xp == TotalXp(Named(kept, n))
  {
    var prefix := kept[..|kept| - 1];
    var t := kept[|kept| - 1];
    var g := Group(prefix);
    assert Group(kept) == Step(g, t);
    GroupKeys(prefix);
    if t.name == Some(n) {
      assert Named(kept, n) == Named(prefix, n) + [t];
      TotalXpAppend(Named(prefix, n), [t]);
      if n in g.1 {
        GroupXp(prefix, n);
        assert Group(kept).1[n].xp == g.1[n].xp + t.amount;
      } else {
        NotInNamesOf(prefix, n);
        assert Group(kept).1[n].xp == t.amount;
      }
    } else {
      assert Named(kept, n) == Named(prefix, n);
      assert t.name.Some? && t.name.value != n;
      assert n in g.1;
      GroupXp(prefix, n);
      assert Group(kept).1[n] == g.1[n];
    }
  }

  /** `d` is the latest `createdAt` among the transactions named `n`. */
  ghost predicate IsLatest(txs: seq<Transaction>, n: string, d: int)
  {
    && (forall i :: 0 <= i < |txs| && txs[i].name == Some(n) ==> txs[i].createdAt <= d)
    && (exists i :: 0 <= i < |txs| && txs[i].name == Some(n) && txs[i].createdAt == d)
  }

  /** Each project's date is the latest `createdAt` among its transactions. */
  lemma {:induction false} GroupDate(kept: seq<Transaction>, n: string)
    requires AllNamed(kept)
    requires n in Group(kept).1
    ensures IsLatest(kept, n, Group(kept).1[n].date)
  {
    var prefix := kept[..|kept| - 1];
    var t := kept[|kept| - 1];
    var g := Group(prefix);
    assert kept == prefix + [t];
    assert Group(kept) == Step(g, t);
    GroupKeys(prefix);
    StepDate(g, t, n);
    if n in g.1 {
      GroupDate(prefix, n);
      LatestSnoc(prefix, t, n, g.1[n].date);
    } else {
      NotInNamesOf(prefix, n);
      LatestFirst(prefix, t, n);
    }
  }

  /** The date one pass leaves on an entry. */
  lemma StepDate(g: (seq<string>, map<string, Info>), t: Transaction, n: string)
    requires t.name.Some? && n in Step(g, t).1
    ensures t.name.value != n ==> n in g.1 && Step(g, t).1[n].date == g.1[n].date
    ensures t.name.value == n && n !in g.1 ==> Step(g, t).1[n].date == t.createdAt
    ensures t.name.value == n && n in g.1 ==>
      Step(g, t).1[n].date == if t.createdAt > g.1[n].date then t.createdAt else g.1[n].date
  {
  }

  /** One more transaction keeps the latest date, or replaces it when it is
      its project's and later. */
  lemma LatestSnoc(txs: seq<Transaction>, t: Transaction, n: string, d: int)
    requires IsLatest(txs, n, d)
    ensures t.name != Some(n) ==> IsLatest(txs + [t], n, d)
    ensures t.name == Some(n) ==> IsLatest(txs + [t], n, if t.createdAt > d then t.createdAt else d)
  {
    var s := txs + [t];
    assert forall i :: 0 <= i < |txs| ==> s[i] == txs[i];
    var j :| 0 <= j < |txs| && txs[j].name == Some(n) && txs[j].createdAt == d;
    assert s[j] == txs[j];
    assert s[|txs|] == t;
  }

  /** The first transaction of a project sets its date. */
  lemma LatestFirst(txs: seq<Transaction>, t: Transaction, n: string)
    requires forall i :: 0 <= i < |txs| ==> txs[i].name != Some(n)
    requires t.name == Some(n)
    ensures IsLatest(txs + [t], n, t.createdAt)
  {
    var s := txs + [t];
    assert forall i :: 0 <= i < |txs| ==> s[i] == txs[i];
    assert s[|txs|] == t;
  }

  /** `Object.entries(projectMap).map(...)`: one row per key, in key order. */
  function Entries(order: seq<string>, info: map<string, Info>): (es: seq<Entry>)
    requires forall n :: n in order ==> n in info
    ensures |es| == |order|
  {
    if order == [] then []
    else
      var n := order[|order| - 1];
      Entries(order[..|order| - 1], info) + [Entry(n, info[n].xp, info[n].date)]
  }

  /** Row `k` reports key `k` with its XP and date. */
  lemma {:induction false} EntriesAt(order: seq<string>, info: map<string, Info>, k: int)
    requires forall n :: n in order ==> n in info
    requires 0 <= k < |order|
    ensures Entries(order, info)[k] == Entry(order[k], info[order[k]].xp, info[order[k]].date)
  {
    if k < |order| - 1 {
      EntriesAt(order[..|order| - 1], info, k);
    }
  }

  /** The XP of all rows. */
  function SumXp(es: seq<Entry>): int
  {
    if es == [] then 0 else SumXp(es[..|es| - 1]) + es[|es| - 1].xp
  }

  lemma {:induction false} SumXpAppend(a: seq<Entry>, b: seq<Entry>)
    ensures SumXp(a + b) == SumXp(a) + SumXp(b)
  {
    if b == [] {
      assert a + b == a;
    } else {
      assert (a + b)[..|a + b| - 1] == a + b[..|b| - 1];
      SumXpAppend(a, b[..|b| - 1]);
    }
  }

  /** Changing the value of one key changes the total by the difference in
      XP when the key is listed once, and not at all when it is not listed. */
  lemma {:induction false} SumXpUpdate(order: seq<string>, info: map<string, Info>, n: string, v: Info)
    requires forall m :: m in order ==> m in info
    requires Distinct(order)
    ensures n in order ==> SumXp(Entries(order, info[n := v])) == SumXp(Entries(order, info)) - info[n].xp + v.xp
    ensures n !in order ==> SumXp(Entries(order, info[n := v])) == SumXp(Entries(order, info))
  {
    if order != [] {
      var info' := info[n := v];
      var prefix := order[..|order| - 1];
      var last := order[|order| - 1];
      assert Distinct(prefix);
      SumXpUpdate(prefix, info, n, v);
      var es, es' := Entries(order, info), Entries(order, info');
      assert es == Entries(prefix, info) + [Entry(last, info[last].xp, info[last].date)];
      assert es' == Entries(prefix, info') + [Entry(last, info'[last].xp, info'[last].date)];
      assert es[..|es| - 1] == Entries(prefix, info);
      assert es'[..|es'| - 1] == Entries(prefix, info');
      assert SumXp(es) == SumXp(Entries(prefix, info)) + info[last].xp;
      assert SumXp(es') == SumXp(Entries(prefix, info')) + info'[last].xp;
      if n == last {
        assert n !in prefix by {
          forall k | 0 <= k < |prefix| ensures prefix[k] != n {
            assert order[k] != order[|order| - 1];
          }
        }
      } else {
        assert n in order <==> n in prefix;
      }
    }
  }

  /** Adding a key at the end adds its row. */
  lemma SumXpSnoc(order: seq<string>, info: map<string, Info>, n: string)
    requires forall m :: m in order ==> m in info
    requires n in info
    ensures SumXp(Entries(order + [n], info)) == SumXp(Entries(order, info)) + info[n].xp
  {
    var es := Entries(order + [n], info);
    assert (order + [n])[..|order|] == order;
    assert es[..|es| - 1] == Entries(order, info);
  }

  /** The rows account for every kept transaction: their XP adds up to the
      XP of all of them. */
  lemma {:induction false} GroupTotal(kept: seq<Transaction>)
    requires AllNamed(kept)
    ensures SumXp(Entries(Group(kept).0, Group(kept).1)) == TotalXp(kept)
  {
    if kept != [] {
      var prefix := kept[..|kept| - 1];
      GroupTotal(prefix);
      GroupWellKeyed(prefix);
      StepTotal(Group(prefix), kept[|kept| - 1]);
    }
  }

  /** A turn of the loop adds the transaction's amount to the rows' total. */
  lemma StepTotal(g: (seq<string>, map<string, Info>), t: Transaction)
    requires t.name.Some? && WellKeyed(g)
    ensures SumXp(Entries(Step(g, t).0, Step(g, t).1)) == SumXp(Entries(g.0, g.1)) + t.amount
  {
    var n := t.name.value;
    var r := Step(g, t);
    if n in g.1 {
      assert r.0 == g.0 && r.1 == g.1[n := r.1[n]];
      SumXpUpdate(g.0, g.1, n, r.1[n]);
    } else {
      var e := Info(t.amount, t.createdAt);
      assert r.0 == g.0 + [n] && r.1 == g.1[n := e];
      SumXpUpdate(g.0, g.1, n, e);
      SumXpSnoc(g.0, r.1, n);
    }
  }

  /** The `forEach` loop that fills `projectMap`, with the keys in the order
      they were first inserted. */
  method GroupByProject(kept: seq<Transaction>) returns (order: seq<string>, info: map<string, Info>)
    requires AllNamed(kept)
    ensures (order, info) == Group(kept)
  {
    order, info := [], map[];
    for i := 0 to |kept|
      invariant (order, info) == Group(kept[..i])
    {
      GroupSnoc(kept, i);
      ghost var g := (order, info);
      var t := kept[i];
      var n := t.name.value;
      if n !in info {
        info := info[n := Info(0, t.createdAt)];
        order := order + [n];
      }
      // the entry object of `n`, updated in place
      var entry := info[n];
      ghost var start := entry;
      entry := entry.(xp := entry.xp + t.amount);
      if t.createdAt > entry.date {
        entry := entry.(date := t.createdAt);
      }
      assert entry == Bump(start, t);
      info := info[n := entry];
      assert info == Step(g, t).1;
    }
    assert kept[..|kept|] == kept;
  }

  /** Rows in order of non-increasing XP. */
  predicate SortedByXp(es: seq<Entry>)
  {
    forall i, j :: 0 <= i < j < |es| ==> es[i].xp >= es[j].xp
  }

  /** `data.sort((a, b) => b.xp - a.xp)`, in place: the rows rearranged into
      non-increasing XP. The order among equal XP is not specified. */
  method SortByXp(a: array<Entry>)
    modifies a
    ensures SortedByXp(a[..])
    ensures multiset(a[..]) == multiset(old(a[..]))
  {
    for i := 0 to a.Length
      invariant SortedByXp(a[..i])
      invariant multiset(a[..]) == multiset(old(a[..]))
    {
      SinkLast(a, i);
    }
    assert a[..a.Length] == a[..];
  }

  /** Rows `0..n` are in order, except possibly row `j`. */
  ghost predicate SortedExcept(s: seq<Entry>, n: int, j: int)
    requires 0 <= n <= |s|
  {
    forall p, q :: 0 <= p < q < n && p != j && q != j ==> s[p].xp >= s[q].xp
  }

  /** Row `j` has more XP than every row after it, up to `n`. */
  ghost predicate AboveRest(s: seq<Entry>, n: int, j: int)
    requires 0 <= j < n <= |s|
  {
    forall q :: j < q < n ==> s[j].xp > s[q].xp
  }

  /** Exchanging row `j` with a smaller predecessor moves the exception one
      place to the left. */
  lemma SinkStep(s: seq<Entry>, n: int, j: int)
    requires 0 < j < n <= |s|
    requires SortedExcept(s, n, j) && AboveRest(s, n, j)
    requires s[j - 1].xp < s[j].xp
    ensures SortedExcept(s[j - 1 := s[j]][j := s[j - 1]], n, j - 1)
    ensures AboveRest(s[j - 1 := s[j]][j := s[j - 1]], n, j - 1)
  {
  }

  /** Before the pass, only the new row `i` can be out of order. */
  lemma SinkStart(s: seq<Entry>, i: int)
    requires 0 <= i < |s|
    requires SortedByXp(s[..i])
    ensures SortedExcept(s, i + 1, i) && AboveRest(s, i + 1, i)
  {
    assert forall p :: 0 <= p < i ==> s[..i][p] == s[p];
  }

  /** Exchanging two neighbours keeps the rows. */
  lemma SwapPermutes(s: seq<Entry>, j: int)
    requires 0 < j < |s|
    ensures multiset(s[j - 1 := s[j]][j := s[j - 1]]) == multiset(s)
  {
  }

  /** Swapping two rows before `k` keeps the rows of the first `k` places
      and leaves the rest alone. */
  lemma SwapKeepsParts(s: seq<Entry>, j: int, k: int)
    requires 0 < j < k <= |s|
    ensures multiset(s[j - 1 := s[j]][j := s[j - 1]][..k]) == multiset(s[..k])
    ensures s[j - 1 := s[j]][j := s[j - 1]][k..] == s[k..]
  {
    assert s[j - 1 := s[j]][j := s[j - 1]][..k] == s[..k][j - 1 := s[j]][j := s[j - 1]];
    SwapPermutes(s[..k], j);
  }

  /** Rows `j - 1` and `j` change places. */
  method SwapAdjacent(a: array<Entry>, j: int)
    requires 0 < j < a.Length
    modifies a
    ensures a[..] == old(a[..])[j - 1 := old(a[j])][j := old(a[j - 1])]
  {
    a[j - 1], a[j] := a[j], a[j - 1];
  }

  /** Once row `j` is not above its predecessor, rows `0..n` are in order. */
  lemma SinkDone(s: seq<Entry>, n: int, j: int)
    requires 0 <= j < n <= |s|
    requires SortedExcept(s, n, j) && AboveRest(s, n, j)
    requires j == 0 || s[j - 1].xp >= s[j].xp
    ensures SortedByXp(s[..n])
  {
  }

  /** One pass of insertion: row `i` moves left past every row with less XP. */
  method SinkLast(a: array<Entry>, i: int)
    requires 0 <= i < a.Length
    requires SortedByXp(a[..i])
    modifies a
    ensures SortedByXp(a[..i + 1])
    ensures multiset(a[..]) == multiset(old(a[..]))
    ensures multiset(a[..i + 1]) == multiset(old(a[..i + 1]))
    ensures a[i + 1..] == old(a[i + 1..])
  {
    SinkStart(a[..], i);
    var j := i;
    while j > 0 && a[j - 1].xp < a[j].xp
      invariant 0 <= j <= i
      invariant SortedExcept(a[..], i + 1, j)
      invariant AboveRest(a[..], i + 1, j)
      invariant multiset(a[..]) == multiset(old(a[..]))
      invariant multiset(a[..i + 1]) == multiset(old(a[..i + 1]))
      invariant a[i + 1..] == old(a[i + 1..])
    {
      SinkStep(a[..], i + 1, j);
      SwapPermutes(a[..], j);
      SwapKeepsParts(a[..], j, i + 1);
      SwapAdjacent(a, j);
      assert a[..i + 1] == a[..][..i + 1] && a[i + 1..] == a[..][i + 1..];
      j := j - 1;
    }
    SinkDone(a[..], i + 1, j);
  }

  /** No two rows share a name. */
  predicate DistinctNames(es: seq<Entry>)
  {
    forall i, j :: 0 <= i < j < |es| ==> es[i].name != es[j].name
  }

  /** A row of the grouped table reports one project correctly: a name that
      occurs, the XP of its transactions and the latest of their dates. */
  lemma RowFacts(kept: seq<Transaction>, e: Entry)
    requires AllNamed(kept)
    requires e in Entries(Group(kept).0, Group(kept).1)
    ensures e.name in NamesOf(kept)
    ensures e.xp == TotalXp(Named(kept, e.name))
    ensures IsLatest(kept, e.name, e.date)
  {
    var g := Group(kept);
    var k :| 0 <= k < |g.0| && Entries(g.0, g.1)[k] == e;
    EntriesAt(g.0, g.1, k);
    GroupKeys(kept);
    GroupXp(kept, e.name);
    GroupDate(kept, e.name);
  }

  /** Every project of the grouped table has its row, and no name has two. */
  lemma RowsCover(kept: seq<Transaction>)
    requires AllNamed(kept)
    ensures DistinctNames(Entries(Group(kept).0, Group(kept).1))
    ensures forall n :: n in NamesOf(kept) ==>
      exists e :: e in Entries(Group(kept).0, Group(kept).1) && e.name == n
  {
    var g := Group(kept);
    var es := Entries(g.0, g.1);
    GroupKeys(kept);
    GroupWellKeyed(kept);
    forall i, j | 0 <= i < j < |es| ensures es[i].name != es[j].name {
      EntriesAt(g.0, g.1, i);
      EntriesAt(g.0, g.1, j);
    }
    forall n | n in NamesOf(kept) ensures exists e :: e in es && e.name == n {
      var k :| 0 <= k < |g.0| && g.0[k] == n;
      EntriesAt(g.0, g.1, k);
      assert es[k] in es;
    }
  }

  /** Rows with distinct names occur once each. */
  lemma {:induction false} AtMostOnce(es: seq<Entry>, x: Entry)
    requires DistinctNames(es)
    ensures multiset(es)[x] <= 1
  {
    if es != [] {
      var prefix := es[..|es| - 1];
      assert es == prefix + [es[|es| - 1]];
      AtMostOnce(prefix, x);
      if es[|es| - 1] == x {
        assert x !in prefix by {
          forall k | 0 <= k < |prefix| ensures prefix[k] != x {
            assert es[k].name != es[|es| - 1].name;
          }
        }
      }
    }
  }

  /** Rearranging rows keeps their names distinct. */
  lemma PermutationDistinctNames(a: seq<Entry>, b: seq<Entry>)
    requires multiset(a) == multiset(b)
    requires DistinctNames(a)
    ensures DistinctNames(b)
  {
    forall i, j | 0 <= i < j < |b| ensures b[i].name != b[j].name {
      assert b[i] in multiset(a) && b[j] in multiset(a);
      if b[i] == b[j] {
        assert b == b[..j] + b[j..];
        assert b[..j][i] == b[i] && b[j..][0] == b[i];
        assert multiset(b)[b[i]] == multiset(b[..j])[b[i]] + multiset(b[j..])[b[i]];
        AtMostOnce(a, b[i]);
        assert false;
      } else {
        var p :| 0 <= p < |a| && a[p] == b[i];
        var q :| 0 <= q < |a| && a[q] == b[j];
        if p < q {
          assert a[p].name != a[q].name;
        } else {
          assert a[q].name != a[p].name;
        }
      }
    }
  }

  /** Rearranging rows keeps their total XP. */
  lemma {:induction false} SumXpPermutation(a: seq<Entry>, b: seq<Entry>)
    requires multiset(a) == multiset(b)
    ensures SumXp(a) == SumXp(b)
    decreases |a|
  {
    if a == [] {
      assert |b| == |multiset(b)| == |multiset(a)| == 0;
    } else {
      var x := a[|a| - 1];
      var prefix := a[..|a| - 1];
      assert a == prefix + [x];
      assert multiset(prefix) == multiset(a) - multiset{x};
      assert x in multiset(b);
      var k :| 0 <= k < |b| && b[k] == x;
      var rest := b[..k] + b[k + 1..];
      RemoveRowMultiset(b, k);
      RemoveRowSum(b, k);
      SumXpPermutation(prefix, rest);
      SumXpAppend(prefix, [x]);
      assert SumXp([x]) == x.xp by {
        assert [x][..0] == [];
      }
    }
  }

  /** Taking row `k` out removes one copy of it. */
  lemma RemoveRowMultiset(b: seq<Entry>, k: int)
    requires 0 <= k < |b|
    ensures multiset(b[..k] + b[k + 1..]) == multiset(b) - multiset{b[k]}
  {
    var x, left, right := b[k], b[..k], b[k + 1..];
    assert b == left + [x] + right;
    assert multiset(b) == multiset(left) + multiset{x} + multiset(right);
  }

  /** Taking row `k` out removes its XP from the total. */
  lemma RemoveRowSum(b: seq<Entry>, k: int)
    requires 0 <= k < |b|
    ensures SumXp(b) == SumXp(b[..k] + b[k + 1..]) + b[k].xp
  {
    assert b[..k] + [b[k]] == b[..k + 1];
    assert b[..k + 1] + b[k + 1..] == b;
    SumXpMiddle(b[..k], b[k], b[k + 1..]);
  }

  /** A row in the middle contributes its XP to the total. */
  lemma SumXpMiddle(left: seq<Entry>, x: Entry, right: seq<Entry>)
    ensures SumXp(left + [x] + right) == SumXp(left + right) + x.xp
  {
    calc {
      SumXp(left + [x] + right);
      { SumXpAppend(left + [x], right); }
      SumXp(left + [x]) + SumXp(right);
      { SumXpAppend(left, [x]); assert [x][..0] == []; }
      SumXp(left) + x.xp + SumXp(right);
      { SumXpAppend(left, right); }
      SumXp(left + right) + x.xp;
    }
  }

  /** Any rearrangement of the grouped table keeps what the table says:
      one row per project, each with the sum of its amounts and its latest
      date, all rows together with the XP of all transactions. */
  lemma PermutedRows(kept: seq<Transaction>, data: seq<Entry>)
    requires AllNamed(kept)
    requires multiset(data) == multiset(Entries(Group(kept).0, Group(kept).1))
    ensures DistinctNames(data)
    ensures forall i :: 0 <= i < |data| ==> data[i].name in NamesOf(kept)
    ensures forall n :: n in NamesOf(kept) ==> exists i :: 0 <= i < |data| && data[i].name == n
    ensures forall i :: 0 <= i < |data| ==> data[i].xp == TotalXp(Named(kept, data[i].name))
    ensures forall i :: 0 <= i < |data| ==> IsLatest(kept, data[i].name, data[i].date)
    ensures SumXp(data) == TotalXp(kept)
  {
    var rows := Entries(Group(kept).0, Group(kept).1);
    RowsCover(kept);
    PermutationDistinctNames(rows, data);
    GroupTotal(kept);
    SumXpPermutation(rows, data);
    forall i | 0 <= i < |data|
      ensures data[i].name in NamesOf(kept)
      ensures data[i].xp == TotalXp(Named(kept, data[i].name))
      ensures IsLatest(kept, data[i].name, data[i].date)
    {
      assert data[i] in multiset(rows);
      RowFacts(kept, data[i]);
    }
    forall n | n in NamesOf(kept) ensures exists i :: 0 <= i < |data| && data[i].name == n {
      var e :| e in rows && e.name == n;
      assert e in multiset(data);
      var i :| 0 <= i < |data| && data[i] == e;
    }
  }

  /** The grouped table before sorting, in key-insertion order. */
  function Rows(txs: seq<Transaction>): seq<Entry>
  {
    Entries(Group(Kept(txs)).0, Group(Kept(txs)).1)
  }

  /** The table `renderProjectXPBars` draws, up to the drawing: filter,
      group, list the entries, sort by XP. Every project among the named
      transactions has exactly one row, with the sum of its amounts and its
      latest date, and the rows are in non-increasing XP. */
  method ProjectXpData(txs: seq<Transaction>) returns (data: seq<Entry>)
    ensures SortedByXp(data)
    ensures multiset(data) == multiset(Rows(txs))
    ensures DistinctNames(data)
    ensures forall i :: 0 <= i < |data| ==> data[i].name in NamesOf(Kept(txs))
    ensures forall n :: n in NamesOf(Kept(txs)) ==> exists i :: 0 <= i < |data| && data[i].name == n
    ensures forall i :: 0 <= i < |data| ==> data[i].xp == TotalXp(Named(Kept(txs), data[i].name))
    ensures forall i :: 0 <= i < |data| ==> IsLatest(Kept(txs), data[i].name, data[i].date)
    ensures SumXp(data) == TotalXp(Kept(txs))
  {
    var kept := Kept(txs);
    var order, info := GroupByProject(kept);
    var rows := Entries(order, info);
    var a := new Entry[|rows|](i requires 0 <= i < |rows| => rows[i]);
    assert a[..] == rows;
    SortByXp(a);
    data := a[..];
    PermutedRows(kept, data);
  }
}
