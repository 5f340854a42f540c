# Verified model of the `validators` string checkers and the tiny minifier

This project models, in Dafny, the core of a small JavaScript repository of dependency-free
input validators and a source minifier:

- `is-minify/minify.js`: the `minify` dispatcher, the JavaScript scanner (`minifyJS`) with
  its regex post-pass, and the CSS scanner (`minifyCSS`) with its post-pass.
- `is-card-safe/card.js`: the Luhn check, brand detection and `validateCard`.
- `is-iban-valid/iban.js` and `is-iban-safe/iban.js`: `isIbanSafe`, the mod-97 check and the
  BBAN structure parser. The two files hold the same checks; they differ only in how the
  registry is loaded, so one module `Iban` models both and takes the registry as a parameter.
- `is-us-tin-safe/tin.js`, `is-ip-safe/ip.js`, `is-email-safe/email.js` (with the variant
  `index.js`), `is-phone-e164/phone.js`, `is-vat-safe/vat.js`,
  `is-password-safe/password.js` and `is-json-safe/json.js`.

There is one module per source file (`Card`, `Iban`, `Tin`, `Ip`, `Email`, `Phone`, `Vat`,
`Password`, `JsonSafe`, `Minify`, `JsMinifier`, `CssMinifier`). Three shared modules hold
what the sources take from the JavaScript runtime or share between scanners:

- `Builtins`: `trim`, the `\s` class, `split`/`join`, ASCII case mapping, `Set` de-duplication
  and decimal values.
- `Lexing`: the scanners' whitespace loop, backslash-escape parity and where literals and
  comments end.
- `PostPass`: the minifier's global regex replacements, as character-by-character functions.

Every regular expression the sources test is written as an explicit predicate over
characters, not run through a regex engine. Code that changes state step by step is modelled
as methods with loops:

- the two scanners, which keep their boolean flags and output buffer;
- the Luhn loop and the mod-97 digit feed;
- the IBAN structure loop and the JSON walk with its explicit stack;
- the password checks' push-to-array code.

Each such method is proved against a specification function, and the properties are proved
about those functions.

Where the code departs from what it evidently means (see "## Findings"), the affected
operation takes a flag `asWritten`. With `true` it behaves as the code is written; with
`false` it behaves as intended. Lemmas exhibit the difference, and the intended properties
are proved for the corrected version.

Two properties one might expect of the minifier do not hold:

- A `/` after `return` does not start a regex: after the word character `n` it is division,
  so `return /ab/g` is scanned as two divisions (`JsMinifier.DivisionAfterWord`,
  `JsMinifier.WordCharThenSlashDivides`).
- The JavaScript minifier is not idempotent: `a //c`, newline, ` b` gives `a`, newline, `b`,
  and that gives `a b` (`JsMinifier.MinifyJsNotIdempotent`).

## Model

| member | source | states |
|---|---|---|
| Minify.Minify | is-minify/minify.js:9-13 | `js` gives the JavaScript minifier's output, `css` the CSS one's, and every other kind fails with the kind error; the output is never longer than the input |
| JsMinifier.Step | is-minify/minify.js:57-139 | one turn of the loop reads at least one character, only appends to the output, and never emits more characters than it reads |
| JsMinifier.Run | is-minify/minify.js:57-139 | the loop from any state never emits more characters than are left to read |
| JsMinifier.RunExtends | is-minify/minify.js:57-139 | the loop only appends: its output extends what was already emitted |
| JsMinifier.InString | is-minify/minify.js:71-83 | the turn inside a string or template is the turn of the specification, and it keeps the flags consistent (one context open at a time) |
| JsMinifier.InCode | is-minify/minify.js:95-138 | the turn outside literals and comments is the turn of the specification, and it keeps the flags consistent |
| JsMinifier.LiteralVerbatim | is-minify/minify.js:71-92 | inside a string, template or regex literal every character read is emitted unchanged until the scanner is back in code or the input ends |
| JsMinifier.LiteralCloses | is-minify/minify.js:71-92 | a string or regex literal is copied up to and including its first delimiter not preceded by an odd run of backslashes, and the scanner is then back in code with that delimiter as `lastOut` |
| JsMinifier.LiteralUnclosed | is-minify/minify.js:71-92 | a literal without such a delimiter is copied as it stands to the end of the input |
| JsMinifier.StringLiteral | is-minify/minify.js:98-99 | a quote outside literals opens a string that is copied verbatim up to its closing quote, or to the end when unclosed |
| JsMinifier.SlashOutsideLiterals | is-minify/minify.js:101-107 | a slash that starts no comment opens a regex, copied verbatim, exactly when `canStartRegexAfter(lastOut)` holds, and is emitted as division otherwise |
| JsMinifier.WordCharThenSlashDivides | is-minify/minify.js:47-53 | after a word character a slash never opens a regex |
| JsMinifier.LineCommentDropped | is-minify/minify.js:61-64 | a `//` comment is dropped up to its newline, which is emitted and becomes `lastOut`; without a newline the rest of the input is dropped |
| JsMinifier.BlockCommentDropped | is-minify/minify.js:66-69 | a block comment is dropped with its markers, emitting nothing and leaving `lastOut` as it was; an unclosed one drops the rest of the input |
| JsMinifier.WhitespaceRun | is-minify/minify.js:110-126 | a whitespace run emits one space exactly when something was emitted before, something follows, and both are word characters; otherwise nothing |
| JsMinifier.DivisionAfterWord | is-minify/minify.js:101-107 | `a / b /` scans to `a/b/`: after a word a slash divides |
| JsMinifier.RegexAfterParen | is-minify/minify.js:84-92 | `(/ a /)` is kept as it stands: after `(` a slash opens a regex whose spaces are kept |
| JsMinifier.BlockCommentJoinsWords | is-minify/minify.js:66-69 | `a/**/b` scans to `ab`: a dropped block comment leaves no space between two words |
| JsMinifier.LineCommentKeepsNewline | is-minify/minify.js:61-64 | `a //c` then a newline and ` b` scans to `a`, newline, `b` |
| JsMinifier.NewlineBetweenWords | is-minify/minify.js:110-126 | a newline between two words becomes one space |
| JsMinifier.NestedTemplate | is-minify/minify.js:71-83 | a template with a nested template inside `${}` is copied as it stands |
| JsMinifier.PostPassKeepsNewline | is-minify/minify.js:142-147 | the post-pass leaves a lone newline between two words alone |
| JsMinifier.PostPassKeepsSpace | is-minify/minify.js:142-147 | the post-pass leaves a lone space between two words alone |
| JsMinifier.MinifyJsNotIdempotent | is-minify/minify.js:23-148 | minifying is not idempotent: `a //c`, newline, ` b` minifies to `a`, newline, `b`, which minifies again to `a b` |
| JsMinifier.MinifyJs | is-minify/minify.js:23-148 | the loop and the post-pass give the scan of the specification followed by the post-pass; the result is no longer than the input, has no whitespace next to punctuation, no blank lines and no whitespace at either end |
| CssMinifier.CssStep | is-minify/minify.js:166-205 | one turn of the loop reads at least one character and never emits more than it reads |
| CssMinifier.CssRun | is-minify/minify.js:166-205 | the loop from any state never emits more characters than are left to read |
| CssMinifier.StringLiteral | is-minify/minify.js:176-182 | a quote outside strings and comments opens a string copied as it stands up to its first unescaped quote of the same kind, or to the end when unclosed |
| CssMinifier.BlockCommentDropped | is-minify/minify.js:169-174 | a block comment outside strings is dropped with its markers; an unclosed one drops the rest of the input |
| CssMinifier.WhitespaceRun | is-minify/minify.js:184-193 | a whitespace run becomes one space exactly when the output ends with a word character and a word character follows; otherwise it is dropped |
| CssMinifier.TightStep | is-minify/minify.js:195-201 | a tight character after anything but a space is appended |
| CssMinifier.DescendantSelector | is-minify/minify.js:184-201 | `a .b > c` scans to `a .b>c`: a space between word characters stays, one beside a tight character goes |
| CssMinifier.Declaration | is-minify/minify.js:184-201 | `a : b ; }` scans to `a:b;}` |
| CssMinifier.DeclarationPostPass | is-minify/minify.js:209 | the post-pass turns `a:b;}` into `a:b}` |
| CssMinifier.MinifyCssDeclaration | is-minify/minify.js:156-215 | the whole CSS minifier turns `a : b ; }` into `a:b}` |
| CssMinifier.MinifyCssNotIdempotent | is-minify/minify.js:207-214 | the post-pass rewrites `; ;}` inside a string to `; }`, and a second run rewrites that to `}`: minifying changes string contents and is not idempotent |
| CssMinifier.MinifyCss | is-minify/minify.js:156-215 | the loop and the post-pass give the scan of the specification followed by the post-pass; the result is no longer than the input, has no `;` right before `}`, no whitespace before `!important`, no blank lines and no whitespace at either end |
| PostPass.StripWsBeforePunct | is-minify/minify.js:143 | the first replacement as written never lengthens the text |
| PostPass.StripWsBeforePunctSeparates | is-minify/minify.js:143 | after the first replacement as written, no whitespace stands right before punctuation |
| PostPass.StripWsBeforePunctDeletes | is-minify/minify.js:143 | as written, `a );` becomes `a;`: the `)` is deleted; as intended it becomes `a);` |
| PostPass.StripWsBeforePunctIntendedSeparates | is-minify/minify.js:143 | after the intended first replacement, no whitespace stands right before punctuation |
| PostPass.StripWsBeforePunctIntendedOnlyWs | is-minify/minify.js:143 | the intended first replacement removes whitespace and nothing else |
| PostPass.StripWsBeforePunctIntendedFixed | is-minify/minify.js:143 | a text with no whitespace before punctuation is left as it is by the intended replacement |
| PostPass.StripWsBeforePunctFixed | is-minify/minify.js:143 | a text with no whitespace before punctuation is left as it is by the replacement as written |
| PostPass.StripWsAfterPunctSeparates | is-minify/minify.js:144 | after the second replacement no whitespace stands right after punctuation |
| PostPass.StripWsAfterPunctKeeps | is-minify/minify.js:143-144 | the second replacement brings no whitespace back before punctuation |
| PostPass.StripWsAfterPunctOnlyWs | is-minify/minify.js:144 | the second replacement removes whitespace and nothing else |
| PostPass.StripWsAfterPunctFixed | is-minify/minify.js:144 | a text with no whitespace after punctuation is left as it is |
| PostPass.CollapseNewlinesSeparates | is-minify/minify.js:146 | after collapsing no two newlines stand in a row |
| PostPass.CollapseNewlinesOnlyNewlines | is-minify/minify.js:213 | collapsing removes newlines and nothing else |
| PostPass.CollapseNewlinesKeepsPairs | is-minify/minify.js:146 | every pair of neighbours after collapsing were neighbours before, so a forbidden pair that was absent stays absent |
| PostPass.CollapseNewlinesIdempotent | is-minify/minify.js:146 | collapsing leaves exactly the texts without a double newline unchanged, so doing it twice is doing it once |
| PostPass.DropSemicolonsSeparates | is-minify/minify.js:209 | after the semicolon replacement no `;` stands right before `}` |
| PostPass.DropSemicolonsOnlySemicolonsAndWs | is-minify/minify.js:209 | the semicolon replacement removes semicolons and whitespace and nothing else |
| PostPass.DropSemicolonsCopies | is-minify/minify.js:209 | a stretch without semicolons is copied unchanged whatever follows |
| PostPass.TightenImportantSeparates | is-minify/minify.js:211 | after the `!important` replacement no whitespace stands before `!important` |
| PostPass.TightenImportantOnlyWs | is-minify/minify.js:211 | the `!important` replacement removes whitespace and nothing else |
| PostPass.TightenImportantKeepsPairs | is-minify/minify.js:209-211 | the `!important` replacement creates no `;` `}` pair |
| PostPass.TightenImportantIdempotent | is-minify/minify.js:211 | the `!important` replacement leaves exactly the texts without whitespace before `!important` unchanged, so doing it twice is doing it once |
| PostPass.JsPostPass | is-minify/minify.js:142-147 | the JavaScript post-pass never lengthens the text and leaves no whitespace before or after punctuation, no blank line and no whitespace at either end |
| PostPass.JsPostPassIdempotent | is-minify/minify.js:142-147 | the post-pass leaves a text unchanged exactly when it already has that shape, so applying it to its own output changes nothing |
| PostPass.JsPostPassOnlyWs | is-minify/minify.js:142-147 | with the intended first replacement, the post-pass removes whitespace and nothing else |
| PostPass.JsPostPassIsFirstPass | is-minify/minify.js:142-147 | when the first replacement leaves nothing for the others to do, the post-pass is that replacement alone |
| PostPass.JsPostPassDeletesPunct | is-minify/minify.js:143 | as written the post-pass turns `a );` into `a;`, deleting a non-whitespace character; as intended it gives `a);` |
| PostPass.CssPostPass | is-minify/minify.js:207-214 | the CSS post-pass never lengthens the text and leaves no `;` before `}`, no whitespace before `!important`, no blank line and no whitespace at either end |
| PostPass.CssPostPassIsSemicolonPass | is-minify/minify.js:207-214 | when the semicolon replacement leaves nothing for the others to do, the CSS post-pass is that replacement alone |
| Lexing.SkipSpaces | is-minify/minify.js:112-113 | the look-ahead loop stops at the end of the maximal whitespace run that starts at its start position |
| Lexing.EscapeFlagIsParity | is-minify/minify.js:80 | the update of the `escape` flag keeps it equal to "an odd number of backslashes stand right before the next character", so a quote is escaped exactly then |
| Lexing.FirstClose | is-minify/minify.js:71-80 | a quoted literal closes at the first unescaped matching quote after its start, and runs to the end of the input when there is none |
| Lexing.FirstNewline | is-minify/minify.js:61-63 | a line comment ends at the first newline after it, or at the end of the input |
| Lexing.FirstCommentEnd | is-minify/minify.js:66-68 | a block comment ends at the first `*/` after it, or at the end of the input |
| Card.LuhnOk | is-card-safe/card.js:77-85 | the loop from the right that doubles every second digit (less 9 above 9) returns true exactly when the Luhn sum is a multiple of 10 |
| Card.LuhnCheckDigit | is-card-safe/card.js:77-85 | every digit prefix has exactly one check digit that makes it pass the Luhn check, and that digit is named |
| Card.LuhnDetectsSubstitution | is-card-safe/card.js:77-85 | of two numbers that differ in one digit, at most one passes the Luhn check |
| Card.LuhnSumConcat | is-card-safe/card.js:79-83 | the Luhn sum of a concatenation is the right part's sum plus the left part's sum with the doubling parity shifted by the right part's length |
| Card.FirstMatchSpec | is-card-safe/card.js:53-75 | the brand search returns the matching brand of least position in the order and returns none exactly when no brand matches |
| Card.DetectBrandIsFirstMatch | is-card-safe/card.js:53-75 | `detectBrand` returns a brand whose pattern matches, no brand earlier in the order matches, and null exactly when no pattern matches |
| Card.DetectedBrandHasAllowedLength | is-card-safe/card.js:29-42 | with the 2-series corrected, every length a brand pattern accepts is in that brand's length table |
| Card.MastercardTwoSeriesAsWrittenFails | is-card-safe/card.js:58 | as written, a 16-digit 2221 number gets no brand (the corrected pattern says Mastercard) and a 17-digit one is called Mastercard although 17 is not a Mastercard length |
| Card.MastercardTwoSeriesVerdicts | is-card-safe/card.js:5-51 | a Luhn-valid 16-digit 2221 number is rejected as written with only `unknown_brand` and accepted when corrected; a 17-digit one draws `length_not_allowed_for_brand` as written |
| Card.Res | is-card-safe/card.js:87-95 | the result carries the normalized value only when ok, the last four characters of a non-empty value, and the issues without repetitions (unchanged when they had none) |
| Card.Last4 | is-card-safe/card.js:92 | `slice(-4)`: the last four characters, or the whole string when shorter |
| Card.CardIssuesMeaning | is-card-safe/card.js:20-49 | a digit string has no issue exactly when it is non-empty, within the length bounds, of a detected brand whose length table holds its length, allowed, not blocked, and Luhn-valid |
| Card.CardIssuesShape | is-card-safe/card.js:21-45 | `non_digit_chars` is raised exactly when nothing is left after removing non-digits; corrected, `length_not_allowed_for_brand` is never raised; no issue appears twice |
| Card.IssuesForDistinct | is-card-safe/card.js:16-47 | the issues are pushed in a fixed order, so the list never repeats an issue |
| Card.ValidateDigits | is-card-safe/card.js:21-50 | pushing each issue whose condition holds yields exactly the issue list of the specification; ok iff no issue; normalized only when ok; brand as detected; last four of non-empty digits |
| Card.ValidateCard | is-card-safe/card.js:5-51 | an input empty after trimming gives not-ok with the single issue `empty` and no other field; otherwise the result is that of the digits left after removing every non-digit |
| Card.VisaExample | is-card-safe/card.js:98 | `4111 1111 1111 1111` is detected as Visa, passes the Luhn check and has no issue under the default options |
| Iban.JsRem | is-iban-safe/iban.js:77 | JavaScript's `%`: on a non-negative dividend the remainder lies in `[0, m)` |
| Iban.Rearrange | is-iban-safe/iban.js:72 | moving the first four characters to the end keeps the length |
| Iban.RearrangeKeepsChars | is-iban-safe/iban.js:72 | moving the first four characters to the end keeps every character (same multiset) |
| Iban.FeedDigits | is-iban-safe/iban.js:79-80 | the inner loop feeds the digit values of `String(c - 55)` into the running remainder |
| Iban.FeedChar | is-iban-safe/iban.js:75-81 | a digit is fed as its value, any other character as the decimal digits of its code minus 55 |
| Iban.Mod97Check | is-iban-safe/iban.js:71-84 | the loop over the rearranged string returns true exactly when the remainder of the expanded digit sequence is 1 |
| Iban.RemainderIsMod97 | is-iban-valid/iban.js:68-77 | on decimal digits, the digit-by-digit remainder equals the value of the whole number modulo 97 |
| Iban.CharValuesOfIbanChar | is-iban-valid/iban.js:70-75 | a digit stands for itself and a letter for the two digits of 10 (`A`) to 35 (`Z`), as ISO 13616 converts them |
| Iban.Mod97CheckIsIso7064 | is-iban-valid/iban.js:65-78 | for an IBAN of upper-case letters and digits, the check holds iff the number ISO 13616 derives from the rearranged IBAN is 1 modulo 97 (ISO/IEC 7064 MOD 97-10) |
| Iban.NextCut | is-iban-safe/iban.js:88 | the next split position is the first at or after the start where the split's lookahead matches, or the end |
| Iban.PiecesConcat | is-iban-safe/iban.js:88 | the parts of the split put back together give the cleaned structure |
| Iban.BbanRegex | is-iban-safe/iban.js:86-105 | the loop over the parts yields the segments of every part when each is a `count!kind` segment, and no pattern as soon as one is not |
| Iban.MatchesPatternLength | is-iban-safe/iban.js:95-99 | only strings exactly as long as the counts together match the anchored pattern |
| Iban.MatchesPatternConcat | is-iban-safe/iban.js:95-99 | a concatenation of matches matches the concatenated pattern |
| Iban.ParseRenderSegment | is-iban-safe/iban.js:91-97 | a written segment `n!k` parses back to its count and kind |
| Iban.StructureRoundTrip | is-iban-safe/iban.js:86-99 | with the intended split, reading a written-down non-empty structure gives back its segments |
| Iban.PiecesAgree | is-iban-safe/iban.js:88 | when no two digits are adjacent (every count one digit long), the split as written and the intended split cut the same parts |
| Iban.MultiDigitCountAsWritten | is-iban-safe/iban.js:88-92 | as written, `10!n` compiles to no pattern; with the intended split it is ten digits |
| Iban.StructureCheckSkippedAsWritten | is-iban-safe/iban.js:59-65 | as written, a registry structure `10!n` skips the structure check, so a BBAN of one letter passes it; the intended pattern rejects it |
| Iban.CheckFormat | is-iban-safe/iban.js:42-55 | the first eight checks push their issues in order, exactly those whose check fails |
| Iban.CheckBban | is-iban-safe/iban.js:59-65 | the BBAN length and structure checks run only under `strictStructure` for a country with a length and a structure, and fail exactly as their specification says |
| Iban.CheckNormalized | is-iban-safe/iban.js:42-65 | all checks on the normalized IBAN push exactly the failing issues in order |
| Iban.IsIbanSafe | is-iban-safe/iban.js:19-69 | an input empty after trimming gives not-ok with the single issue `empty`; otherwise the issues are those of the specification, ok iff none, and the normalized IBAN is returned only when ok |
| Iban.NormalizedInOrder | is-iban-safe/iban.js:42-68 | the issues come in a fixed order after the two about the raw input, so none is repeated |
| Iban.NormalizedMember | is-iban-safe/iban.js:42-65 | the issue at each position of the order is raised exactly when its check fails |
| Iban.NormalizedEmpty | is-iban-safe/iban.js:42-67 | no issue is raised on the normalized IBAN exactly when every check passes |
| Iban.CountryChecksExclusive | is-iban-safe/iban.js:49-50 | `country_not_in_registry` is raised for an unknown country, `bad_length_for_country` for a known one of another length, never both |
| Iban.BadCheckDigitsBreakFormat | is-iban-safe/iban.js:44-52 | check digits that are not two digits also fail the basic format |
| Iban.BbanChecksNeedKnownCountry | is-iban-safe/iban.js:59 | the BBAN checks fail only under `strictStructure` and for a country in the registry |
| Iban.AcceptedIsValid | is-iban-valid/iban.js:33-60 | an accepted IBAN has the basic format, its country's registry length, a length within the bounds, a country the lists allow, and is 1 modulo 97 as a number |
| Iban.NormalizeIdempotent | is-iban-safe/iban.js:40 | normalizing twice changes nothing more: no white space and no lower-case letter is left |
| Tin.NormalizeTinIdempotent | is-us-tin-safe/tin.js:5-7 | only digits are left, a digit string is left as it is, and normalizing again changes nothing |
| Tin.SsnByValue | is-us-tin-safe/tin.js:29-40 | nine digits form an SSN exactly when the area is from 1 to 899 and not 666, the group and the serial are not zero, and the number is not 078-05-1120 |
| Tin.ZeroField | is-us-tin-safe/tin.js:35-36 | a digit field is worth zero exactly when it is all zeros, so the text comparisons with `000`, `00` and `0000` are value comparisons |
| Tin.ItinGroupCheckImplied | is-us-tin-safe/tin.js:43-53 | the test that the ITIN group is not `00` never rejects anything, because the group ranges exclude 0 |
| Tin.SsnItinExclusive | is-us-tin-safe/tin.js:29-53 | no number is both an SSN and an ITIN, since an ITIN's leading 9 makes its area 900 or more |
| Tin.DetectedSound | is-us-tin-safe/tin.js:61-64 | every type pushed is one the number has |
| Tin.FirstAllowedSpec | is-us-tin-safe/tin.js:71 | `find` returns the first type that the allow list holds, and nothing when the list holds none of them |
| Tin.ValidateTin | is-us-tin-safe/tin.js:59-84 | pushing the types and choosing one gives the verdict of the specification |
| Tin.TinAccepted | is-us-tin-safe/tin.js:69-83 | an accepted number has nine digits, no issue, its normalized value, and a type it has that a non-empty allow list holds and the block list does not |
| Tin.TinRejected | is-us-tin-safe/tin.js:73-83 | a rejection carries exactly one issue: `type_blocked` iff the chosen type (possibly `unknown`) is blocked, otherwise `bad_format` iff the value is not nine digits and `unknown_type` iff it is; only `type_blocked` keeps the normalized value |
| Tin.TinNoType | is-us-tin-safe/tin.js:77-82 | without lists, nine digits of no type give `unknown_type` and anything else `bad_format` |
| Tin.EinComesFirst | is-us-tin-safe/tin.js:62-69 | without an allow list an employer number is reported as `ein` whatever else it is, unless `ein` is blocked |
| Tin.EinExample | is-us-tin-safe/tin.js:10-26 | `123456789` is an employer number, since the prefix 12 is in the issued list |
| Ip.ValidateIPv4 | is-ip-safe/ip.js:16-31 | splitting on dots and pushing each part's issues gives the IPv4 verdict of the specification |
| Ip.V4IssuesEmpty | is-ip-safe/ip.js:21-28 | no part raises an issue exactly when every part is decimal digits worth at most 255 with no leading zero unless it is `0` |
| Ip.V4Accepted | is-ip-safe/ip.js:16-31 | an IPv4 address passes exactly when it has four parts and every part is such an octet |
| Ip.ValidateIPv6 | is-ip-safe/ip.js:33-45 | splitting on colons and pushing an issue per bad group gives the IPv6 verdict of the specification |
| Ip.V6IssuesEmpty | is-ip-safe/ip.js:39-42 | no part raises an issue exactly when every part is empty or one to four hex digits |
| Ip.V6Accepted | is-ip-safe/ip.js:33-45 | an IPv6 address passes exactly when it has three to eight parts and every non-empty part is a hex group |
| Ip.IsIpSafe | is-ip-safe/ip.js:7-14 | trimming and dispatching on a colon first, then a dot, gives the verdict of the specification |
| Ip.IpOkIffNoIssues | is-ip-safe/ip.js:7-45 | the result is ok exactly when it has no issue, `empty` is returned exactly for blank input, and a result without a version is never ok |
| Ip.IsIPv4Plain | is-ip-safe/ip.js:47-49 | on trimmed text with a dot and no colon, `isIPv4` is the IPv4 verdict |
| Ip.IsIPv6Plain | is-ip-safe/ip.js:51-53 | on trimmed text with a colon, `isIPv6` is the IPv6 verdict |
| Ip.OctetOf | is-ip-safe/ip.js:22-26 | the decimal rendering of a value below 256 is an accepted part |
| Ip.DottedQuadAccepted | is-ip-safe/ip.js:47-49 | every address written as four values below 256 in decimal, joined by dots, is accepted as IPv4 |
| Ip.AcceptedIsDottedQuad | is-ip-safe/ip.js:16-31 | every accepted IPv4 address, trimmed, is the dotted quad of its four values, each below 256 |
| Ip.CanonicalParts | is-ip-safe/ip.js:17-28 | four octets joined by dots are their values' renderings joined by dots |
| Ip.ColonRunsAccepted | is-ip-safe/ip.js:33-45 | `::` is accepted as IPv6, and so, loosely, is any run of two to seven colons |
| Email.NormalizeEmailIdempotent | is-email-safe/email.js:8-10 | a normalized address has no upper-case letter and no surrounding white space, and normalizing it again changes nothing |
| Email.IncludesDoubleDot | is-email-safe/email.js:23 | `includes('..')` holds exactly when two dots stand side by side |
| Email.DotShapeIffPieces | is-email-safe/email.js:23 | a non-empty text with no dot at either end and no two dots side by side is exactly one whose dot-separated pieces are all non-empty |
| Email.DomainOf | is-email-safe/email.js:19 | the domain bound by `split('@')` holds no `@` |
| Email.SplitAtBinds | is-email-safe/email.js:17-19 | `split('@')` binds the text before the first `@` to `local` and the text up to the next `@` to `domain`, ignoring the rest |
| Email.LocalIsDotAtom | is-email-safe/email.js:20-23 | the local part passes exactly when it is at most 64 characters of the allowed class and a dot-atom: dot-separated pieces none of which is empty |
| Email.DomainDoubleDotImplied | is-email-safe/email.js:26-29 | the `..` test on the domain never decides anything: non-empty labels already rule out two dots side by side and a dot at either end |
| Email.AcceptedShape | is-email-safe/email.js:13-39 | an address accepted by `isEmail` (and so by `validateEmail` and `isEmailSafe`) has a non-empty dot-atom local part, a domain of at least two labels, and at most 254 characters once trimmed |
| Email.IndexAsWrittenIsLooser | index.js:18-25 | the index.js domain check as written accepts every domain the email.js check accepts, and more: exactly the domains whose only fault is an empty or over-long label |
| Email.AddressParts | is-email-safe/email.js:17-19 | `local@domain` with `@` in neither part is cut into those two parts |
| Email.AddressJudgedByDomain | index.js:1-28 | an address made of an accepted local part, `@` and a domain without `@` is judged by its domain alone, under either label rule |
| Email.LetterLocal | is-email-safe/email.js:22-23 | a one-letter local part passes |
| Email.EmptyLabelAcceptedAsWritten | index.js:20-22 | `a@.b.co` and every address of that shape is accepted by index.js as written and rejected by email.js |
| Email.DotLabels | is-email-safe/email.js:27 | two dot-free labels joined by one dot split back into the two |
| Email.ShortAddressAccepted | test.mjs:4 | `a@b.co`, and every address of that shape, passes |
| Email.HyphenLabelRejected | test.mjs:8 | `a@-b.co`, and every address of that shape, fails under both label rules |
| Email.SingleLabelRejected | test.mjs:8 | `a@b`, and every address whose domain is one letter, fails under both label rules |
| Phone.NormalizePhoneContent | is-phone-e164/phone.js:9-17 | nothing for a blank input, otherwise `+` and the significant characters; without a leading `00` those are exactly the characters that are neither a separator nor a `+` |
| Phone.PlusOnce | is-phone-e164/phone.js:13-16 | after the `00` prefix is turned into `+`, one `+` is put in front and every other `+` is dropped |
| Phone.NormalizePhoneShape | is-phone-e164/phone.js:9-17 | the result is empty exactly for a blank input; any other result is one `+` followed by characters that are neither `+` nor separators |
| Phone.NormalizePhoneIdempotent | is-phone-e164/phone.js:9-17 | normalizing a normalized number changes nothing |
| Phone.NormalizedIsPlain | is-phone-e164/phone.js:9-17 | a `+` followed by such characters is already trimmed and left alone by normalization |
| Phone.E164ByValue | is-phone-e164/phone.js:20-24 | a number passes `isE164` exactly when, trimmed, it is `+` followed by the decimal rendering of a value from 10^6 up to but not including 10^15 |
| Phone.E164Value | is-phone-e164/phone.js:23 | the digits of an E.164 number render a value in that range |
| Phone.ValueE164 | is-phone-e164/phone.js:23 | every value in that range renders as 7 to 15 digits not starting with `0` |
| Phone.DecValueLength | is-phone-e164/phone.js:23 | a digit string of length k without a leading zero is worth from 10^(k-1) up to but not including 10^k |
| Phone.ValidateOptionalMeaning | is-phone-e164/phone.js:27-30 | the optional check passes exactly for a blank input or one whose significant characters are 7 to 15 digits not starting with `0` |
| Vat.NormalizeVatIdempotent | is-vat-safe/vat.js:39-43 | a normalized number holds no separator and no lower-case letter, and normalizing it again changes nothing |
| Vat.NormalizedUnchanged | is-vat-safe/vat.js:39-43 | a value without separators or lower-case letters is its own normalization |
| Vat.DetectCountry | is-vat-safe/vat.js:46-49 | the detected prefix is empty or two characters long |
| Vat.DetectOnNormalized | is-vat-safe/vat.js:46-49 | detection on an already normalized value agrees with detection on the raw value |
| Vat.DetectedPrefix | is-vat-safe/vat.js:46-49 | on a normalized number the prefix is its first two characters when both are letters `A`-`Z`, and empty otherwise |
| Vat.CountryOfCode | is-vat-safe/vat.js:4-36 | every country of the pattern table is found under its own code |
| Vat.CodeOfCountry | is-vat-safe/vat.js:4-36 | a code finds only the country it names |
| Vat.CodeIsLetters | is-vat-safe/vat.js:4-34 | every code of the table is two upper-case letters |
| Vat.RestLength | is-vat-safe/vat.js:5-33 | every pattern accepts between 2 and 12 characters after the prefix |
| Vat.CzechEntryAsWritten | is-vat-safe/vat.js:9 | as written, no run of 8 to 10 digits matches the Czech entry, while one digit followed by the text `{8,9,10}` does; the intended entry does the reverse |
| Vat.JudgeNumber | is-vat-safe/vat.js:62-76 | pushing the prefix issues, stopping at `country_unsupported`, then testing the pattern, gives the judgement of the specification |
| Vat.IsVatSafe | is-vat-safe/vat.js:57-77 | the result is the verdict of the specification: `empty` for an empty normalized value, otherwise the judgement of the normalized number |
| Vat.VatAccepted | is-vat-safe/vat.js:57-77 | a number passes exactly when, normalized, it starts with the code of a table country the lists allow and the rest fits that country's pattern; an accepted result carries the country and the normalized number and no issue |
| Vat.GermanNumberAccepted | is-vat-safe/vat.js:10 | with no lists, `DE` followed by any nine digits passes |
| Vat.CzechVerdict | is-vat-safe/vat.js:9 | a normalized `CZ` number passes with no lists exactly when the Czech entry accepts the rest |
| Vat.CzechVerdicts | is-vat-safe/vat.js:9 | as written, `CZ12345678` is rejected and `CZ1{8,9,10}` accepted; the intended entry does the reverse |
| Password.UpCountWindow | is-password-safe/password.js:110-115 | the counter `up` reaches n at a position exactly when the n characters ending there ascend by one code point each |
| Password.DownCountWindow | is-password-safe/password.js:110-115 | the counter `down` reaches n at a position exactly when the n characters ending there descend by one code point each |
| Password.Reverse | is-password-safe/password.js:122 | `[...row].reverse().join('')` has the same length and holds the characters in reverse order |
| Password.HasSubstringRun | is-password-safe/password.js:127-133 | the loop returns true exactly when some window of `runLen` characters of the row occurs in the text |
| Password.HasStepRun | is-password-safe/password.js:109-116 | the counting loop returns true exactly when some run of `runLen` characters steps by +1 or by -1 throughout |
| Password.HasRowRun | is-password-safe/password.js:118-123 | the row loop returns true exactly when some window of a row, forwards or reversed, occurs in the text |
| Password.HasSequentialRun | is-password-safe/password.js:108-125 | true exactly when the password has a run of `runLen` stepping characters, or its lower-cased form holds a keyboard-row window forwards or backwards |
| Password.NoStepRun | is-password-safe/password.js:111-116 | when neither counter reaches n anywhere, there is no run |
| Password.StepRunInContext | is-password-safe/password.js:108-116 | a run is found wherever it sits: surrounding text never hides it |
| Password.HasTriple | is-password-safe/password.js:139-141 | the first loop returns true exactly when three equal characters stand side by side |
| Password.HasDoubledBlock | is-password-safe/password.js:143-149 | the block loops return true exactly when two equal adjacent blocks of 2 to 4 characters, and at least `minBlock`, occur |
| Password.HasRepeatedBlock | is-password-safe/password.js:135-151 | true exactly when three equal characters stand side by side, or two equal adjacent blocks of 2 to 4 characters (at least `minBlock`) occur |
| Password.FirstStartSpec | is-password-safe/password.js:98-103 | the nested scan finds a word of at least four characters exactly when there is one, and the first in scan order |
| Password.IsDictionaryLike | is-password-safe/password.js:92-105 | the scan returns the dictionary-hit function of the specification |
| Password.DictHitSpec | is-password-safe/password.js:92-105 | nothing exactly when the compacted password is empty, or is no word and holds no word of four or more characters; otherwise the whole compacted password if it is a word, else the first such window, which is always a lower-cased dictionary word |
| Password.Fail | is-password-safe/password.js:84-90 | the failure record is not ok, scores 0, carries the single reason and the single suggestion `provide a string` |
| Password.NotAStringFails | is-password-safe/password.js:35 | a value that is not a string gets the fixed failure record with every field zero or false |
| Password.PushMissing | is-password-safe/password.js:41-43 | the loop over `requireSets` appends a `missing` reason, in order, for each required name that `sets` does not hold truthy: an absent class or an unknown name, but never a name inherited from `Object.prototype` such as `toString` |
| Password.CollectReasons | is-password-safe/password.js:37-55 | the pushes onto `reasons` give exactly the reason list of the specification |
| Password.PushAdds | is-password-safe/password.js:59 | the loop appends an `add` suggestion for each absent class, in order |
| Password.CollectSuggestions | is-password-safe/password.js:57-62 | the pushes onto `suggestions` give exactly the suggestion list of the specification |
| Password.ValidatePassword | is-password-safe/password.js:24-82 | the result is the verdict of the specification, with the entropy estimate as a parameter |
| Password.MissingReasonsSpec | is-password-safe/password.js:41-43 | no `missing` reason exactly when every required name is truthy in `sets`; each one names a required name that is not |
| Password.InheritedNamesNeverMissing | is-password-safe/password.js:28-43 | no `missing` reason ever names an inherited property of the `sets` object literal; requiring `toString` and `colour` gives only `missing colour` |
| Password.AddSuggestionsSpec | is-password-safe/password.js:59 | each `add` suggestion names a class that is absent |
| Password.OutcomeShape | is-password-safe/password.js:37-81 | ok exactly when the length is within the bounds, every required class occurs, no detector fired and the entropy reaches the minimum; ok iff no reason; a passing password gets no suggestion; the score is the entropy band, one less when refused, within 0 to 4 |
| Password.SuggestionsAnswerReasons | is-password-safe/password.js:57-62 | every suggestion follows a reason: `use ≥n chars` only with the short-length reason, `add` only for an absent class, the avoid advice only when a detector fired |
| Password.SuggestionCause | is-password-safe/password.js:57-62 | each suggestion's condition: short length, an absent class, a dictionary hit, a run or a repeat |
| Password.ReasonsPresent | is-password-safe/password.js:38-52 | a short password and each detector that fired raise their reason |
| Password.PasswordAccepted | is-password-safe/password.js:24-82 | a string passes exactly when its length is within the bounds, every required class occurs, no dictionary word, no run of four and no repeated block is found, and its entropy reaches the minimum |
| Password.DefaultsDemand | is-password-safe/password.js:15-22 | under the default settings a passing password has 12 to 1024 code points, all four classes, no word of the default dictionary and at least 60 bits of entropy |
| JsonSafe.Keys | is-json-safe/json.js:86 | `Object.keys(v)` has one key per member |
| JsonSafe.Step | is-json-safe/json.js:72-93 | a turn of the loop that goes on leaves fewer values to pop, so the walk ends |
| JsonSafe.Pop | is-json-safe/json.js:73-93 | the loop body pops the top entry, records its depth, breaks with the limit issue, or pushes the kids (adding an object's keys and their blocked-key issues), as the turn of the specification says |
| JsonSafe.PushItems | is-json-safe/json.js:84 | an array's items are pushed in order, one depth deeper |
| JsonSafe.PushMembers | is-json-safe/json.js:89-92 | an object's member values are pushed in key order, one depth deeper, and each blocked key appends its issue |
| JsonSafe.Analyze | is-json-safe/json.js:67-96 | the loop from the root at depth 0 ends in the walk of the specification |
| JsonSafe.MarkReviverKeys | is-json-safe/json.js:38-44 | the reviver appends one blocked-key issue for each key it is handed that is blocked, in order |
| JsonSafe.IsJsonSafe | is-json-safe/json.js:26-57 | the result is the verdict of the specification, the parse being given |
| JsonSafe.MarkBlockedSpec | is-json-safe/json.js:59-61 | every marked issue names a key that was seen and is blocked, and none is marked exactly when no key seen is blocked |
| JsonSafe.WalkSpec | is-json-safe/json.js:72-94 | from any stack, the walk finishes exactly when every value on it is within the depth and string limits and the keys stay within the limit; then it reports the greatest depth, the key total and the blocked keys of the values on the stack |
| JsonSafe.StepGoShape | is-json-safe/json.js:73-92 | a turn that goes on popped an entry within the limits, replaced it by its kids, and added an object's keys and their blocked-key issues |
| JsonSafe.StepHalt | is-json-safe/json.js:75-88 | a turn that breaks does so on a limit the stack really breaks |
| JsonSafe.StepAppends | is-json-safe/json.js:73-92 | a turn only appends to the issues: blocked keys when it goes on, the one limit issue when it breaks |
| JsonSafe.WalkAppends | is-json-safe/json.js:72-94 | the walk only appends to the issues: blocked keys, then at most one limit issue, last |
| JsonSafe.AnalyzeMeaning | is-json-safe/json.js:67-96 | `analyze` breaks exactly when the value nests deeper than `maxDepth`, holds a string longer than `maxStringLength`, or has more than `maxKeys` keys in all; otherwise it reports the nesting depth, the key total and the blocked object keys in stack order |
| JsonSafe.TreeMarksSound | is-json-safe/json.js:89-91 | every blocked-key issue of the walk names a blocked key the reviver sees too |
| JsonSafe.ReviverForestHolds | is-json-safe/json.js:38-44 | the reviver sees the label of every kid and every key below it |
| JsonSafe.BlankIsEmpty | is-json-safe/json.js:32 | blank input is refused with the single issue `empty` and nothing measured |
| JsonSafe.VerdictShape | is-json-safe/json.js:32-56 | ok exactly when there is no issue; no issue twice; the value returned exactly when ok and `returnValue`; `too_large` exactly for non-blank input longer than `maxBytes`; at most one limit issue |
| JsonSafe.WalkIssues | is-json-safe/json.js:33-51 | after parsing, the issues are `too_large` (exactly when it was raised before), blocked keys, and at most the limit issue the walk stopped on |
| JsonSafe.JsonAccepted | is-json-safe/json.js:26-57 | a parsed non-blank input passes exactly when it is within `maxBytes`, the reviver sees no blocked key, and the value is within the depth, string and key limits; it then reports the nesting depth and key total |
| JsonSafe.CleanWalk | is-json-safe/json.js:67-96 | the walk ends without issue exactly when it starts with none, the value is within the limits and holds no blocked object key |
| JsonSafe.NoTreeMarks | is-json-safe/json.js:89-91 | a value whose keys the reviver sees are all allowed holds no blocked object key |
| JsonSafe.DefaultsBlockPrototypeKeys | is-json-safe/json.js:11-18 | under the default settings a value with a key `__proto__`, `constructor` or `prototype` is refused |

## Left out

- Non-string inputs. JavaScript callers may pass any value, which most checks turn into a string with `String(x ?? "")`. The model takes strings. Where the source branches on `typeof`, in `isEmail` and `validatePassword`, the input is an `Option<string>` and `None` stands for "not a string".
- UTF-16. JavaScript strings are sequences of UTF-16 code units, and `length`, indexing and `slice` count units. The model's strings are sequences of code points. The two agree on every character of the Basic Multilingual Plane. They differ on astral characters such as emoji, wherever a length is reported or compared before the character checks reject the input, e.g. JSON `bytes`, `maxBytes` and `maxStringLength`.
- Password.HasRepeatedBlock: compares code points, while the source compares UTF-16 units of `[...pw].join('')` (the same string). The verdicts differ on astral characters: on units, "😀😀😀" contains no three equal units in a row, while "😀😀" contains a doubled block of two units. The same holds for `Password.HasTriple` and `Password.HasDoubledBlock`.
- Case mapping. `toUpperCase` and `toLowerCase` are modelled on ASCII letters only (`Builtins.UpperStr`, `Builtins.LowerStr`). This affects IBAN and VAT normalization, `normalizeEmail` and the password's lower-casing. Non-ASCII letters, whose JavaScript mappings follow Unicode tables, are left as they are.
- Whitespace is the ECMAScript `\s` set used by `trim` and `/\s+/`: the WhiteSpace and LineTerminator characters, listed in `Builtins.IsWs`. The scanners' own `isSpace` is the smaller set in `Lexing.IsScanSpace`.
- Password.ValidatePassword: the entropy estimate (`estimateEntropyBits`, which uses `Math.log2` on floating point) is a real-number parameter. Scoring and the entropy reason are proved for whatever value it has; the estimate itself is not computed.
- `checkPwned`, `toSHA1` and `dummySha1` use the network and a hash function and are not modelled. The model's password options have no `checkPwned` flag, which does nothing in `validatePassword` anyway.
- Loading the IBAN registry (`import` of a JSON file or `fetch`) is I/O. The registry's length and structure maps are a parameter of `Iban.IsIbanSafe`.
- `JSON.parse` is not modelled. `JsonSafe.IsJsonSafe` takes the parsed tree as a parameter, with `None` for a parse failure. Only arrays and plain objects appear in the tree, so `isPlainObject` is always true of an object. An object's keys are visited in member order, which stands for `Object.keys` order. The parsed value is not echoed back (`returnValue`).
- `normalizeJson` is a `JSON.stringify` of `JSON.parse` and is not modelled, since neither is.
- The minifier's command-line helper (is-minify/minify.js:217-230) reads stdin and writes stdout. It is I/O and is not modelled.
- The aliases `validateEmail`, `isEmailSafe`, `safeParseJson` and the default exports are the same functions under other names. They get no members of their own.
- `is-url-safe/url.js`, the benchmark scripts and `scripts/` are not part of this model. `test.mjs` is used only for the example lemmas that cite it.
- Iban.BbanRegex: returns the parsed segment list (count and character class) that the source compiles into a `RegExp`. Matching is `Iban.MatchesPattern` over that list, not over a regular-expression object.
- Numbers are unbounded integers. A BBAN structure's segment count is read with `Number`; a count too long for a double would lose precision in JavaScript, and a huge count would make the `RegExp` constructor fail. The model takes the exact value.

## Findings

| source | as written | input that shows it | evidently intended | confidence | as-written member | corrected member |
|---|---|---|---|---|---|---|
| is-card-safe/card.js:58 | the 2-series alternative is a five-digit prefix followed by `\d{12}`, so it matches 17-digit numbers only | `2221000000000009` (16 digits, Luhn-valid) is `unknown_brand`; `22210000000000000` is Mastercard and then `length_not_allowed_for_brand` | 16-digit numbers with prefix 2221–2720, as the comment says | not executed | Card.MastercardTwoSeriesVerdicts | Card.DetectedBrandHasAllowedLength |
| is-iban-safe/iban.js:88 | `split(/(?=\d+!)/)` also splits before the second digit of a multi-digit count | structure `10!n` splits into `1` and `0!n`, so `bbanRegex` returns null and the BBAN structure check is skipped: `XX00A` passes the structure check | one piece per `<count>!<class>` entry | not executed | Iban.StructureCheckSkippedAsWritten | Iban.StructureRoundTrip |
| is-vat-safe/vat.js:9 | `\d{8,9,10}` is not a quantifier, so it reads as a digit followed by the literal text `{8,9,10}` | `CZ12345678` is rejected; `CZ1{8,9,10}` is accepted | `CZ` followed by 8, 9 or 10 digits | not executed | Vat.CzechVerdicts | Vat.CzechVerdict |
| index.js:20-22 | `p.starts_with?.('-')` and `p.ends_with?.('-')` are undefined, and the fallback tests hyphens only, so empty and over-long labels are not rejected | `a@.b.co` is accepted | every label non-empty and at most 63 characters, as in is-email-safe/email.js | not executed | Email.EmptyLabelAcceptedAsWritten | Email.IndexAsWrittenIsLooser |
| is-minify/minify.js:143 | in `/\s+([,;:{}()[\].])+/g` the `+` is outside the group, so the whole run is replaced by its last character | `a );` becomes `a;`, which deletes the `)` | remove the whitespace and keep the whole punctuation run | not executed | PostPass.JsPostPassDeletesPunct | PostPass.StripWsBeforePunctIntendedSeparates |
