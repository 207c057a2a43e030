# GraphQL profile dashboard: a Dafny model

The dashboard is a small browser application with two pages. On the login page,
a user name and password are exchanged for a JWT, which is stored in the
browser under the key `jwt`. The profile page checks that token, sends one
GraphQL query, and shows the answer:

- the user's login;
- the total XP;
- the list of completed projects;
- a line chart of the running XP total;
- a bar chart of the XP earned per project, with the largest first.

This project models the parts of that application that decide something.

| module | file | what it holds |
|---|---|---|
| `Wrappers` | wrappers.dfy | `Option` and `Result`. |
| `Strings` | strings.dfy | The string operations the code relies on: `split` on one character (JavaScript semantics), `includes`, and `trim` with the ECMAScript white-space and line-terminator set. |
| `Records` | records.dfy | The transaction and progress records of the GraphQL answer, and the XP sum. |
| `Token` | token.dfy | The JWT shape check `isValidToken`, and the browser's token slot as a class `TokenStore` whose field `jwt` the pages update. |
| `Login` | login.dfy | The sign-in handler: the credential text; trimming and unquoting the response body; storing the token before validating it; the outcome. It also holds the login page's "already signed in" check. |
| `Profile` | profile.dfy | The page-load guard, decoding of the response, the per-skill completed counts (a loop over the records), the completed-project list, the XP series, the error handler and `logout`. |
| `Charts` | charts.dfy | Colour brightness (`getBrightness`) as an exact integer. Per-project XP grouping: the filter, the dictionary filled by a loop, the listing of its entries and the in-place sort of the resulting array. |

`isValidToken` appears twice in the code (login.js:6-10 and
profile.js:39-43), with identical bodies. It is defined once here, as
`Token.IsValidToken`.

Each pure computation of the code is a Dafny function, proved against the
properties the code relies on. The steps that update state step by step are
methods whose postconditions tie them to those functions:

- the sign-in handler's two writes to storage;
- the `reduce` that mutates its accumulator;
- the `forEach` that fills the project dictionary;
- the in-place `sort`.

## Model

| member | source | states |
|---|---|---|
| `Token.IsValidToken` | profile.js:39-43 | `isValidToken`: an accepted token is present, non-empty, and neither starts nor ends with a dot. `ValidTokenShape` gives the exact condition. |
| `Token.ValidTokenShape` | profile.js:39-43 | A token is accepted exactly when it is non-empty, has exactly two dots, neither starts nor ends with a dot, and has no two adjacent dots. Equivalently, it splits into three non-empty segments. |
| `Token.ThreeSegmentsValid` | login.js:6-10 | Three non-empty segments without dots, joined by dots, always form an accepted token. |
| `Token.TwoSegmentsRejected` | login.js:6-10 | Two dot-free segments joined by one dot are rejected. |
| `Token.AdjacentDotsRejected` | login.js:6-10 | Any token with two adjacent dots is rejected. |
| `Token.LeadingDotRejected` | login.js:6-10 | Any token starting with a dot is rejected. |
| `Token.ValidTokenExamples` | login.js:6-10 | `a.b.c` is accepted. A missing token and the empty string are rejected. |
| `Token.InvalidTokenExamples` | profile.js:39-43 | `a.b`, `a..b` and `.b.c` are rejected. |
| `Token.TokenStore.constructor` | profile.js:10 | The store starts with the token already saved in the browser. |
| `Strings.Split` | profile.js:41 | `split` yields one more part than there are separators, and no part contains the separator. |
| `Strings.JoinSplit` | profile.js:41 | Joining the parts with the separator gives the string back. |
| `Strings.SplitFirst` | profile.js:114 | The first part is the prefix of the string before its first separator. |
| `Strings.SplitJoin` | profile.js:41 | Splitting the join of separator-free parts gives those parts back. |
| `Strings.SplitAfterPrefix` | profile.js:41 | Splitting `x + sep + y`, with `x` free of the separator, gives `x` followed by the parts of `y`. |
| `Strings.SplitNoSep` | profile.js:41 | A string without the separator splits into itself alone. |
| `Strings.SplitFirstEmpty` | profile.js:42 | The first part is empty exactly when the string is empty or starts with the separator. |
| `Strings.SplitTailNonEmpty` | profile.js:42 | Every part after the first is non-empty exactly when the string is empty, or has no two adjacent separators and does not end with one. |
| `Strings.SplitAllNonEmpty` | profile.js:42 | Every part is non-empty exactly when the string is non-empty, does not start or end with the separator, and has no two adjacent separators. |
| `Strings.Contains` | d3charts.js:115 | `includes` holds exactly when the substring occurs at some position. |
| `Strings.TrimStart` | login.js:48 | The result is a suffix of the input. Everything removed is white space, and the result does not start with white space. |
| `Strings.TrimEnd` | login.js:48 | The result is a prefix of the input. Everything removed is white space, and the result does not end with white space. |
| `Strings.Trim` | login.js:48 | The result is no longer than the input, and neither of its ends is white space. |
| `Strings.TrimSlice` | login.js:48 | The result is a slice of the input with only white space around it. |
| `Strings.TrimEndPadded` | login.js:48 | Trimming the end of a text that ends in a non-blank character removes exactly the white space appended to it. |
| `Strings.TrimStartPadded` | login.js:48 | Trimming the start of a text that starts with a non-blank character removes exactly the white space put before it. |
| `Strings.TrimPadded` | login.js:48 | `trim` gives back any text with non-blank ends from between arbitrary white space. |
| `Login.Credentials` | login.js:30 | The credential text is the user name, one colon, then the password. |
| `Login.CredentialsRoundTrip` | login.js:30 | The `user:pass` text gives back the user name and the password when the user name has no colon (section 2 of RFC 7617). |
| `Login.StripQuotes` | login.js:51-53 | An unquoted token is kept. A quoted one loses exactly its first and last characters, so a lone `"` becomes empty. |
| `Login.StripQuotesOfQuoted` | login.js:51-53 | Quoting a text and then stripping gives the text back. |
| `Login.StripQuotesExamples` | login.js:51-53 | Only one pair of quotes is removed. A lone `"` becomes empty, and a text with a quote at one end only is kept. |
| `Login.ReceivedToken` | login.js:48-53 | The token is no longer than the body. It equals the trimmed body exactly when that body is not quoted. A quoted body loses exactly one surrounding pair of quotes, and a lone `"` becomes empty. |
| `Login.SignIn` | login.js:44-65 | A failed response leaves storage alone and shows "Invalid username or password". A successful one always stores the trimmed, unquoted body, and redirects exactly when that token is valid. Otherwise it shows "Invalid token received". |
| `Login.MalformedTokenIsStored` | login.js:48-64 | The token is stored before it is validated. Any quoted body without dots, padded with white space, leaves its unquoted text in storage and shows "Invalid token received". |
| `Login.QuotedTokenAccepted` | login.js:48-59 | Any quoted body of three non-empty dot-free segments, padded with white space, is stored without its quotes, and the page goes to the index. |
| `Login.Submit` | login.js:44-65 | The handler's steps, with their two writes to storage, leave exactly the stored token and the outcome that `SignIn` describes. |
| `Login.AlreadySignedIn` | login.js:77-82 | The login page moves on to the index exactly when a token is stored and valid. |
| `Records.TotalXp` | profile.js:108 | The sum of no transactions is 0, and the sum of one transaction is its amount. |
| `Records.TotalXpAppend` | profile.js:108 | The sum over a concatenation is the sum of the two sums. |
| `Records.TotalXpNonNegative` | profile.js:108 | With non-negative amounts the total is non-negative. |
| `Profile.Decode` | profile.js:95-111 | A GraphQL error fails with its first message, and an empty `errors` list fails with a TypeError. Missing `data` fails with a TypeError, and a missing or empty `user` list fails with "User data not found". Otherwise the result carries the first user and both lists, where a missing list counts as empty. |
| `Profile.DecodeErrorExample` | profile.js:95-97 | A response that carries an error fails with that error's message, whatever its data. |
| `Profile.XpProgressData` | profile.js:130-134 | There is one point per transaction, in order, carrying that transaction's date and amount. |
| `Profile.SeriesFirst` | profile.js:133 | The first running total is the first amount. |
| `Profile.SeriesStep` | profile.js:133 | Each running total exceeds the one before it by exactly the point's own amount. |
| `Profile.SeriesLast` | profile.js:130-134 | The last running total equals the total XP shown on the page. |
| `Profile.SeriesMonotone` | profile.js:130-134 | With non-negative amounts the running totals never decrease. |
| `Profile.IsCompleted` | profile.js:122 | A record counts as completed exactly when it is a pass and has a non-empty name. The `includes("")` test removes nothing. |
| `Profile.CompletedProjects` | profile.js:121-123 | The list is no longer than the progress records, and every name in it is non-empty. |
| `Profile.CompletedAppend` | profile.js:121-123 | The list keeps record order: it distributes over concatenation. |
| `Profile.CompletedMembers` | profile.js:121-123 | A name is listed exactly when it is non-empty and some record with a positive grade carries it. The `includes("")` test excludes nothing. |
| `Profile.SkillName` | profile.js:114 | The skill is the prefix of the name before its first `/`, and contains no `/`. |
| `Profile.SkillCounts` | profile.js:112-119 | There are never more skills in the dictionary than records; `SkillCountsAt` gives each count exactly. |
| `Profile.SkillCountsAt` | profile.js:112-119 | A skill has an entry exactly when some passed record belongs to it. Its count is the number of such records. |
| `Profile.SumValuesRemove` | profile.js:112-119 | The sum of a dictionary's counts can be taken starting from any key. |
| `Profile.SumValuesBump` | profile.js:115-116 | Creating an entry at zero, or reusing one, and adding one adds one to the sum of the counts. |
| `Profile.SkillCountsTotal` | profile.js:112-119 | When every passed record has a name, the per-skill counts add up to the number of passed records. |
| `Profile.SkillStep` | profile.js:113-118 | One more record makes the map fail if the record is passed and has no name. A passed, named record adds one to its skill's count; any other record leaves the counts alone. |
| `Profile.BuildSkillMap` | profile.js:112-119 | The loop fails, with a TypeError, exactly when some passed record has no object name. Otherwise it returns the per-skill counts. |
| `Profile.FetchProfile` | profile.js:95-141 | Decoding errors come back unchanged, and a passed record without a name gives a TypeError. Otherwise the view holds the login, the total XP, the skill counts, the completed list, the XP series, and the bar data, which is sorted by descending XP and a permutation of the grouped rows. |
| `Profile.ReportError` | profile.js:144-152 | An error whose message mentions `JWT` removes the stored token. Any other error leaves it alone. |
| `Profile.CheckStoredToken` | profile.js:7-23 | The profile is fetched exactly when the stored token is valid. Otherwise the token is removed. |
| `Profile.Logout` | profile.js:26-29 | The stored token is removed. |
| `Charts.HexDigitValue` | d3charts.js:3 | A hexadecimal digit's value is below 16. |
| `Charts.ParseHex` | d3charts.js:3-5 | Parsing `n` hexadecimal digits gives a value below 16^n. |
| `Charts.ParseHexPair` | d3charts.js:3-5 | Two digits parse to sixteen times the first digit's value plus the second's. |
| `Charts.Channels` | d3charts.js:3-5 | Each of the three channels lies between 0 and 255. |
| `Charts.Weighted` | d3charts.js:6 | The weighted channel sum is 0 exactly for black, and at most 255000 for channels up to 255. |
| `Charts.Brightness` | d3charts.js:2-7 | The weighted sum `r*299 + g*587 + b*114` lies between 0 and 255000, the brightness scaled by 1000. |
| `Charts.GreyBrightness` | d3charts.js:2-7 | A grey colour, whose three channels are the same, has brightness 1000 times its channel value. |
| `Charts.BrightnessOfBlack` | d3charts.js:2-7 | `#000000` has brightness 0. |
| `Charts.BrightnessOfWhite` | d3charts.js:2-7 | `#ffffff` and `#FFFFFF` have the largest brightness, 255000. |
| `Charts.BrightnessMonotone` | d3charts.js:6 | Brighter channels give a brighter colour. |
| `Charts.HexByte` | d3charts.js:3 | The inverse of the two-digit parse, which the code itself never performs: formatting a byte gives two hexadecimal digits. |
| `Charts.DigitValue` | d3charts.js:3 | For the inverse of the two-digit parse: each digit of the formatting alphabet is a hexadecimal digit that parses to its own index. |
| `Charts.ParseHexByte` | d3charts.js:3 | The two-digit parse undoes its inverse: parsing a formatted byte gives the byte back. |
| `Charts.ChannelsRoundTrip` | d3charts.js:3-5 | A colour built from three bytes is well formed, and its channels are those bytes. |
| `Charts.BrightnessOfBytes` | d3charts.js:2-7 | The brightness of a colour built from three bytes is their weighted sum. |
| `Charts.HasName` | d3charts.js:115 | A transaction is kept exactly when it has a non-empty project name. The `includes("")` test removes nothing. |
| `Charts.Kept` | d3charts.js:114-116 | The filter keeps at most the transactions it is given, and every one it keeps has a non-empty name. |
| `Charts.KeptCount` | d3charts.js:114-116 | The filter keeps every copy of a transaction with a name, and no copy of one without. |
| `Charts.KeptAppend` | d3charts.js:114-116 | The filter keeps order: it distributes over concatenation. |
| `Charts.Named` | d3charts.js:120-125 | The transactions whose XP the loop adds to one project all carry that project's name. |
| `Charts.NamedCount` | d3charts.js:120-125 | They hold every copy of each transaction named for the project, and nothing else. |
| `Charts.NamesOfSnoc` | d3charts.js:121 | Adding a transaction adds its name to the set of project names. |
| `Charts.NotInNamesOf` | d3charts.js:122 | A name outside the set belongs to no transaction. |
| `Charts.NamedEmpty` | d3charts.js:122 | A name outside the set has no transactions. |
| `Charts.Bump` | d3charts.js:125-129 | Updating a project's entry adds the amount to its XP. Its date becomes the later of the old date and the transaction's. |
| `Charts.Step` | d3charts.js:120-130 | One pass of the loop adds the transaction's name to the keys, and every name in key order stays a key. |
| `Charts.Group` | d3charts.js:119-130 | Every name in key order is a key of the dictionary. |
| `Charts.StepWellKeyed` | d3charts.js:122-124 | A pass keeps the key order listing every key exactly once. |
| `Charts.GroupWellKeyed` | d3charts.js:119-130 | The key order lists every key of the dictionary exactly once. |
| `Charts.GroupKeys` | d3charts.js:119-130 | The keys are exactly the names of the kept transactions. |
| `Charts.GroupSnoc` | d3charts.js:120 | The dictionary after `i+1` transactions is one pass over the dictionary after `i`. |
| `Charts.GroupXp` | d3charts.js:125 | A project's XP is the sum of the amounts of its transactions. |
| `Charts.GroupDate` | d3charts.js:123-129 | A project's date is the latest `createdAt` among its transactions, and one of them. |
| `Charts.LatestSnoc` | d3charts.js:127-129 | A later transaction of the project moves the latest date forward. A transaction of another project leaves it alone. |
| `Charts.LatestFirst` | d3charts.js:123 | A project's first transaction sets its date. |
| `Charts.Entries` | d3charts.js:132-136 | There is one row per key. |
| `Charts.EntriesAt` | d3charts.js:132-136 | Row `k` carries key `k` with that key's XP and date. |
| `Charts.SumXpAppend` | d3charts.js:132-136 | The XP of a concatenation of rows is the sum of the two parts' XP. |
| `Charts.SumXpUpdate` | d3charts.js:125 | Changing one listed key's XP changes the rows' total by the difference. Changing an unlisted key changes nothing. |
| `Charts.SumXpSnoc` | d3charts.js:132-136 | Listing one more key adds its XP to the total. |
| `Charts.StepTotal` | d3charts.js:120-130 | One pass adds the transaction's amount to the rows' total. |
| `Charts.GroupTotal` | d3charts.js:119-136 | The rows' XP adds up to the XP of all kept transactions: grouping loses nothing. |
| `Charts.GroupByProject` | d3charts.js:119-130 | The loop that fills the dictionary in place computes exactly the grouping. |
| `Charts.SortByXp` | d3charts.js:139 | The array ends up sorted by descending XP and is a permutation of what it held. |
| `Charts.SinkLast` | d3charts.js:139 | One insertion pass sorts the first `i + 1` rows by reordering only them, and leaves the rows after them in place. |
| `Charts.SwapKeepsParts` | d3charts.js:139 | Swapping two rows inside a prefix keeps the prefix's rows and leaves the rest alone. |
| `Charts.RowFacts` | d3charts.js:119-136 | Every row names a kept project, and carries its total XP and latest date. |
| `Charts.RowsCover` | d3charts.js:119-136 | The rows have distinct names, and every kept project has a row. |
| `Charts.AtMostOnce` | d3charts.js:132-136 | In rows with distinct names, each row occurs at most once. |
| `Charts.PermutationDistinctNames` | d3charts.js:139 | Reordering rows keeps their names distinct. |
| `Charts.SumXpPermutation` | d3charts.js:139 | Reordering rows keeps their total XP. |
| `Charts.RemoveRowMultiset` | d3charts.js:139 | Taking one row out removes exactly one copy of it. |
| `Charts.RemoveRowSum` | d3charts.js:139 | Taking one row out removes its XP from the total. |
| `Charts.SumXpMiddle` | d3charts.js:132-136 | A row anywhere in the table contributes its XP to the total. |
| `Charts.PermutedRows` | d3charts.js:132-139 | Any reordering of the grouped rows still has distinct names, covers every project, carries each project's total XP and latest date, and adds up to the kept XP. |
| `Charts.ProjectXpData` | d3charts.js:112-139 | The bar data is sorted by descending XP and is a permutation of the grouped rows. It has one row per named project, with that project's total XP and latest date, and its XP adds up to the XP of the kept transactions. |

## Left out

- Rendering is not modelled: the D3 line and bar charts, tooltips, animation and the page's DOM text (`textContent`, `toLocaleString`, the "Completed projects: …" sentence, `showError`). The model stops at the values handed to them.
- Network, storage, timers and navigation are not modelled as effects. `fetch` becomes an input: the response's `ok` flag and body on the login page, and the decoded JSON on the profile page. `localStorage` becomes the `TokenStore` object. Navigation, the two-second `setTimeout` and the console output are left out.
- `btoa` is not modelled: the model stops at the `user:pass` text. Base64 is a standard encoding outside this code.
- `Charts.Brightness`: returns the integer numerator `r*299 + g*587 + b*114` rather than that value divided by 1000 as a floating-point number. `getBrightness` has no caller in this code.
- `Charts.Channels`: `parseInt` accepts a leading run of digits and yields `NaN` otherwise. The model only defines brightness for colours whose six channel characters are all hexadecimal digits.
- `Charts.GroupDate`: `createdAt` is a timestamp already turned into an integer. Date parsing and invalid dates are left out.
- `Charts.ProjectXpData`: `Object.entries` lists integer-like keys first, in numeric order, and the model keeps plain insertion order. The sort's order among rows with equal XP is not fixed either, so the result is stated up to such ties: sorted, and a permutation of the grouped rows.
- `Charts.GroupByProject`: project names that collide with `Object.prototype` properties, such as `constructor`, are treated as ordinary keys. The same holds for the skill dictionary built by `Profile.BuildSkillMap`.
- `Profile.FetchProfile`: the login and total XP are written to the page before the skill counts can fail. That partial page is not modelled.
- A missing `object` and an `object` without a name are both a missing name. Both fail in the skill counts and both are filtered out elsewhere.
- Amounts are integers and grades are reals, so floating-point rounding of XP sums is not modelled. The `TypeError` case carries no message. In the code its message never mentions `JWT`, so `Profile.ReportError` keeps the token for it.
