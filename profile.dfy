/** The profile page: its guard on the stored token, and the pure part of
    `fetchProfile` that turns the GraphQL response into what the page shows.
    The request itself is an input: the decoded JSON response. */
module Profile {
  import opened Wrappers
  import opened Strings
  import opened Records
  import opened Token
  import Charts

  datatype User = User(id: int, login: string)

  /** `result.data`; each list may be missing. */
  datatype ProfileData = ProfileData(
    user: Option<seq<User>>,
    transaction: Option<seq<Transaction>>,
    progress: Option<seq<Progress>>)

  /** One entry of `result.errors`. */
  datatype GraphQLError = GraphQLError(message: string)

  /** The JSON body of the GraphQL response. */
  datatype Response = Response(errors: Option<seq<GraphQLError>>, data: Option<ProfileData>)

  /** What `fetchProfile` throws: an `Error` with a message, or the runtime
      error of reading a property of `undefined` or `null`. */
  datatype FetchError = DataError(message: string) | TypeError

  const UserNotFound: string := "User data not found"

  /** The response once checked: the first user and the two lists. */
  datatype Decoded = Decoded(user: User, transactions: seq<Transaction>, progress: seq<Progress>)

  /** The checks at the top of `fetchProfile`. An `errors` field, even an
      empty one, fails: with the first message, or with a TypeError when
      there is none. Without `data` reading `data.user` fails. Without a first
      user the page reports "User data not found". Missing lists are empty. */
  function Decode(r: Response): (d: Result<Decoded, FetchError>)
    ensures r.errors.Some? && r.errors.value != [] ==> d == Failure(DataError(r.errors.value[0].message))
    ensures r.errors == Some([]) ==> d == Failure(TypeError)
    ensures r.errors.None? && r.data.None? ==> d == Failure(TypeError)
    ensures d.Success? <==> r.errors.None? && r.data.Some? && r.data.value.user.Some? && r.data.value.user.value != []
    ensures r.errors.None? && r.data.Some? && (r.data.value.user.None? || r.data.value.user.value == []) ==>
      d == Failure(DataError(UserNotFound))
    ensures d.Success? ==>
      && d.value.user == r.data.value.user.value[0]
      && d.value.transactions == r.data.value.transaction.GetOr([])
      && d.value.progress == r.data.value.progress.GetOr([])
  {
    if r.errors.Some? then
      (if r.errors.value != [] then Failure(DataError(r.errors.value[0].message)) else Failure(TypeError))
    else if r.data.None? then Failure(TypeError)
    else
      var data := r.data.value;
      if data.user.None? || data.user.value == [] then Failure(DataError(UserNotFound))
      else Success(Decoded(data.user.value[0], data.transaction.GetOr([]), data.progress.GetOr([])))
  }

  /** A GraphQL error surfaces with its own message. */
  lemma DecodeErrorExample(data: Option<ProfileData>)
    ensures Decode(Response(Some([GraphQLError("x")]), data)) == Failure(DataError("x"))
  {
  }

  // ---------------------------------------------------------------------
  // The XP-over-time series
  // ---------------------------------------------------------------------

  /** One point of the line chart: `{ date, amount, total }`. */
  datatype XpPoint = XpPoint(date: int, amount: int, total: int)

  /** `transactions.map((tx, index) => ...)`: each point carries its
      transaction's date and amount, and the sum of the amounts of the
      slice up to and including it. */
  function XpProgressData(txs: seq<Transaction>): (pts: seq<XpPoint>)
    ensures |pts| == |txs|
    ensures forall i :: 0 <= i < |txs| ==> pts[i].date == txs[i].createdAt && pts[i].amount == txs[i].amount
  {
    seq(|txs|, i requires 0 <= i < |txs| => XpPoint(txs[i].createdAt, txs[i].amount, TotalXp(txs[..i + 1])))
  }

  /** The first total is the first amount. */
  lemma SeriesFirst(txs: seq<Transaction>)
    requires |txs| > 0
    ensures XpProgressData(txs)[0].total == txs[0].amount
  {
    assert txs[..1] == [txs[0]];
  }

  /** Consecutive totals differ by exactly the later point's amount. */
  lemma SeriesStep(txs: seq<Transaction>, i: int)
    requires 0 < i < |txs|
    ensures XpProgressData(txs)[i].total - XpProgressData(txs)[i - 1].total == XpProgressData(txs)[i].amount
  {
    assert txs[..i + 1][..i] == txs[..i];
  }

  /** The last total is the XP shown on the page. */
  lemma SeriesLast(txs: seq<Transaction>)
    requires |txs| > 0
    ensures XpProgressData(txs)[|txs| - 1].total == TotalXp(txs)
  {
    assert txs[..|txs|] == txs;
  }

  /** With non-negative amounts the totals never decrease. */
  lemma {:induction false} SeriesMonotone(txs: seq<Transaction>, i: int, j: int)
    requires forall k :: 0 <= k < |txs| ==> txs[k].amount >= 0
    requires 0 <= i <= j < |txs|
    ensures XpProgressData(txs)[i].total <= XpProgressData(txs)[j].total
  {
    if i < j {
      SeriesMonotone(txs, i, j - 1);
      SeriesStep(txs, j);
    }
  }

  // ---------------------------------------------------------------------
  // Completed projects
  // ---------------------------------------------------------------------

  /** The filter of `completedProjects`: a pass, with an object whose name
      is present, not empty and `includes("")`. */
  predicate IsCompleted(p: Progress)
    ensures IsCompleted(p) <==> p.grade > 0.0 && p.name.Some? && p.name.value != []
  {
    p.grade > 0.0 && p.name.Some? && p.name.value != [] &&
      (assert OccursAt(p.name.value, "", 0); Contains(p.name.value, ""))
  }

  /** `progress.filter(...).map(p => p.object.name)`. */
  function CompletedProjects(ps: seq<Progress>): (names: seq<string>)
    ensures |names| <= |ps|
    ensures forall i :: 0 <= i < |names| ==> names[i] != []
  {
    if ps == [] then []
    else (if IsCompleted(ps[0]) then [ps[0].name.value] else []) + CompletedProjects(ps[1..])
  }

  /** The list keeps the records' order: it distributes over concatenation. */
  lemma {:induction false} CompletedAppend(a: seq<Progress>, b: seq<Progress>)
    ensures CompletedProjects(a + b) == CompletedProjects(a) + CompletedProjects(b)
  {
    if a == [] {
      assert a + b == b;
    } else {
      assert (a + b)[1..] == a[1..] + b;
      CompletedAppend(a[1..], b);
    }
  }

  /** A name is listed exactly when some passed record carries it, non-empty;
      the `includes("")` test rejects nothing. */
  lemma {:induction false} CompletedMembers(ps: seq<Progress>, n: string)
    ensures n in CompletedProjects(ps) <==>
      n != [] && exists i :: 0 <= i < |ps| && ps[i].grade > 0.0 && ps[i].name == Some(n)
  {
    if ps != [] {
      CompletedMembers(ps[1..], n);
      assert OccursAt(n, "", 0);
      assert forall i :: 0 < i < |ps| ==> ps[i] == ps[1..][i - 1];
      if exists i :: 0 <= i < |ps| && ps[i].grade > 0.0 && ps[i].name == Some(n) {
        var i :| 0 <= i < |ps| && ps[i].grade > 0.0 && ps[i].name == Some(n);
        if i > 0 {
          assert ps[1..][i - 1] == ps[i];
        }
      }
    }
  }

  // ---------------------------------------------------------------------
  // Completed count per skill
  // ---------------------------------------------------------------------

  /** `name.split('/')[0]`: the part of a name before its first `/`. */
  function SkillName(name: string): (skill: string)
    ensures skill <= name && '/' !in skill
    ensures |skill| < |name| ==> name[|skill|] == '/'
  {
    SplitFirst(name, '/');
    Split(name, '/')[0]
  }

  /** Some passed record has no object name: `skillMap` throws on it. */
  predicate MissingName(ps: seq<Progress>)
  {
    exists i :: 0 <= i < |ps| && ps[i].grade > 0.0 && ps[i].name.None?
  }

  /** The dictionary the `reduce` builds, as a function of the records seen
      so far: each passed record adds one to its skill's count, creating the
      entry on first sight. */
  function SkillCounts(ps: seq<Progress>): (m: map<string, nat>)
    ensures |m| <= |ps|
  {
    if ps == [] then map[]
    else
      var acc := SkillCounts(ps[..|ps| - 1]);
      var p := ps[|ps| - 1];
      if p.grade > 0.0 && p.name.Some? then
        var skill := SkillName(p.name.value);
        acc[skill := (if skill in acc then acc[skill] else 0) + 1]
      else acc
  }

  /** The records that count for `skill`: passed, with a name in that skill. */
  function CountSkill(ps: seq<Progress>, skill: string): nat
  {
    if ps == [] then 0
    else
      var p := ps[|ps| - 1];
      CountSkill(ps[..|ps| - 1], skill)
        + (if p.grade > 0.0 && p.name.Some? && SkillName(p.name.value) == skill then 1 else 0)
  }

  /** The passed records. */
  function CountPassed(ps: seq<Progress>): nat
  {
    if ps == [] then 0
    else CountPassed(ps[..|ps| - 1]) + (if ps[|ps| - 1].grade > 0.0 then 1 else 0)
  }

  /** A skill has an entry exactly when some passed record is in it, and its
      count is the number of such records; failed records add nothing. */
  lemma {:induction false} SkillCountsAt(ps: seq<Progress>, skill: string)
    ensures skill in SkillCounts(ps) <==> CountSkill(ps, skill) > 0
    ensures skill in SkillCounts(ps) ==> SkillCounts(ps)[skill] == CountSkill(ps, skill)
  {
    if ps != [] {
      SkillCountsAt(ps[..|ps| - 1], skill);
    }
  }

  /** The sum of a dictionary's counts. */
  ghost function SumValues(m: map<string, nat>): nat
    decreases |m|
  {
    if m == map[] then 0
    else
      var k :| k in m;
      m[k] + SumValues(m - {k})
  }

  /** The sum can be taken starting from any key. */
  lemma {:induction false} SumValuesRemove(m: map<string, nat>, k: string)
    requires k in m
    ensures SumValues(m) == m[k] + SumValues(m - {k})
    decreases |m|
  {
    var j :| j in m && SumValues(m) == m[j] + SumValues(m - {j});
    if j != k {
      SumValuesRemove(m - {j}, k);
      SumValuesRemove(m - {k}, j);
      assert m - {j} - {k} == m - {k} - {j};
    }
  }

  /** Adding one to an entry, new or old, adds one to the sum. */
  lemma SumValuesBump(m: map<string, nat>, k: string)
    ensures SumValues(m[k := (if k in m then m[k] else 0) + 1]) == SumValues(m) + 1
  {
    var m' := m[k := (if k in m then m[k] else 0) + 1];
    SumValuesRemove(m', k);
    assert m' - {k} == m - {k};
    if k in m {
      SumValuesRemove(m, k);
    } else {
      assert m - {k} == m;
    }
  }

  /** The completed counts add up to the number of passed records. */
  lemma {:induction false} SkillCountsTotal(ps: seq<Progress>)
    requires !MissingName(ps)
    ensures SumValues(SkillCounts(ps)) == CountPassed(ps)
  {
    if ps != [] {
      var prefix := ps[..|ps| - 1];
      assert forall i :: 0 <= i < |prefix| ==> prefix[i] == ps[i];
      SkillCountsTotal(prefix);
      var p := ps[|ps| - 1];
      if p.grade > 0.0 {
        assert p.name.Some?;
        SumValuesBump(SkillCounts(prefix), SkillName(p.name.value));
      } else {
        assert SumValues(SkillCounts(ps)) == SumValues(SkillCounts(prefix));
      }
    }
  }

  /** The records up to `i + 1`, in terms of those up to `i`. */
  lemma SkillStep(ps: seq<Progress>, i: int)
    requires 0 <= i < |ps|
    ensures MissingName(ps[..i + 1]) <==>
      MissingName(ps[..i]) || (ps[i].grade > 0.0 && ps[i].name.None?)
    ensures SkillCounts(ps[..i + 1]) ==
      if ps[i].grade > 0.0 && ps[i].name.Some? then
        var skill := SkillName(ps[i].name.value);
        var acc := SkillCounts(ps[..i]);
        acc[skill := (if skill in acc then acc[skill] else 0) + 1]
      else SkillCounts(ps[..i])
  {
    assert ps[..i + 1][..i] == ps[..i];
    assert forall j :: 0 <= j < i ==> ps[..i + 1][j] == ps[..i][j];
  }

  /** The `reduce` that builds `skillMap`, as a loop over the records with
      the dictionary updated in place. It throws on the first passed record
      that has no object name. */
  method BuildSkillMap(ps: seq<Progress>) returns (r: Result<map<string, nat>, FetchError>)
    ensures r.Failure? <==> MissingName(ps)
    ensures r.Failure? ==> r.error == TypeError
    ensures r.Success? ==> r.value == SkillCounts(ps)
  {
    var acc: map<string, nat> := map[];
    for i := 0 to |ps|
      invariant !MissingName(ps[..i])
      invariant acc == SkillCounts(ps[..i])
    {
      SkillStep(ps, i);
      var p := ps[i];
      if p.grade > 0.0 {
        if p.name.None? {
          return Failure(TypeError);
        }
        var skill := SkillName(p.name.value);
        if skill !in acc {
          acc := acc[skill := 0];
        }
        acc := acc[skill := acc[skill] + 1];
      }
    }
    assert ps[..|ps|] == ps;
    return Success(acc);
  }

  // ---------------------------------------------------------------------
  // The page
  // ---------------------------------------------------------------------

  /** Everything the page computes from one response. `skills` is computed
      but never shown; it matters only through its TypeError. */
  datatype ProfileView = ProfileView(
    login: string,
    totalXp: int,
    skills: map<string, nat>,
    completed: seq<string>,
    series: seq<XpPoint>,
    bars: seq<Charts.Entry>)

  /** The body of the `try` in `fetchProfile`, from the response on: decode,
      sum the XP, build the skill counts, list the completed projects, build
      the series and the bar chart's table. */
  method FetchProfile(resp: Response) returns (r: Result<ProfileView, FetchError>)
    ensures Decode(resp).Failure? ==> r == Failure(Decode(resp).error)
    ensures Decode(resp).Success? && MissingName(Decode(resp).value.progress) ==> r == Failure(TypeError)
    ensures Decode(resp).Success? && !MissingName(Decode(resp).value.progress) ==>
      && r.Success?
      && r.value.login == Decode(resp).value.user.login
      && r.value.totalXp == TotalXp(Decode(resp).value.transactions)
      && r.value.skills == SkillCounts(Decode(resp).value.progress)
      && r.value.completed == CompletedProjects(Decode(resp).value.progress)
      && r.value.series == XpProgressData(Decode(resp).value.transactions)
      && Charts.SortedByXp(r.value.bars)
      && multiset(r.value.bars) == multiset(Charts.Rows(Decode(resp).value.transactions))
  {
    var decoded := Decode(resp);
    if decoded.Failure? {
      return Failure(decoded.error);
    }
    var d := decoded.value;
    var transactions := d.transactions;
    var totalXp := TotalXp(transactions);
    var progress := d.progress;
    var skillMap := BuildSkillMap(progress);
    if skillMap.Failure? {
      return Failure(skillMap.error);
    }
    var completed := CompletedProjects(progress);
    var series := XpProgressData(transactions);
    var bars := Charts.ProjectXpData(transactions);
    return Success(ProfileView(d.user.login, totalXp, skillMap.value, completed, series, bars));
  }

  /** The `catch` of `fetchProfile`: an error whose message mentions `JWT`
      removes the stored token (the page then returns to the login page). */
  method ReportError(store: TokenStore, e: FetchError)
    modifies store
    ensures store.jwt == if e.DataError? && Contains(e.message, "JWT") then None else old(store.jwt)
  {
    if e.DataError? && Contains(e.message, "JWT") {
      store.jwt := None;
    }
  }

  /** The page-load guard: without a valid stored token the token is removed
      and the page goes to the login page; otherwise the profile is fetched. */
  method CheckStoredToken(store: TokenStore) returns (fetch: bool)
    modifies store
    ensures fetch == IsValidToken(old(store.jwt))
    ensures store.jwt == if fetch then old(store.jwt) else None
  {
    var token := store.jwt;
    if token.None? || !IsValidToken(token) {
      store.jwt := None;
      return false;
    }
    return true;
  }

  /** `logout`: the stored token is removed. */
  method Logout(store: TokenStore)
    modifies store
    ensures store.jwt == None
  {
    store.jwt := None;
  }
}
