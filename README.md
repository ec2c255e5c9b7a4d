# therapytips-ssg, modelled in Dafny

therapytips-ssg builds the static TherapyTips web site. A build script (`index.ts`) fetches
articles, authors, personality-test questions, videos and analytics from remote services and
renders them with EJS templates into one output directory per environment. An upload script
(`upload.ts`) sends one of those directories to an FTP server. This project models the
deterministic decisions of both scripts, of their helpers (`utils.ts`) and of the API client
(`api.ts`), and proves what they promise:

- which environments get built, from the command line, NODE_ENV/BUILD_ENV and the API base URL,
  and the configuration of each environment;
- which listing and detail pages are planned, with which template, author record and questions;
- the API client's response envelope, the query string built from the search parameters and the
  trending-items parser;
- the ISO 8601 duration, views and reading-time helpers, and the selection of the six most-read
  pages;
- the upload target, the FTP configuration and its validation, the recursive file walk, the
  local-to-remote path mapping and the dry-run report.

Layout, one module per file:

- `wrappers.dfy` (`Wrappers`): `Option` and `Result`.
- `text.dfy` (`Text`): the JavaScript string operations the scripts use. These are `trim` and
  `\s`, `indexOf`/`includes`, `split` on a literal, `replace` of the first occurrence, and
  `parseInt` in radix 10. Truthiness of an optional string is `Truthy`.
- `seqs.dfy` (`Seqs`): `FilterMap` (a `forEach` that pushes some items), with lemmas on order
  and origin, and small facts about concatenation.
- `utils.dfy` (`Utils`): `utils.ts`.
- `api.dfy` (`Api`): `api.ts`.
- `build.dfy` (`Build`): `index.ts`.
- `upload.dfy` (`Upload`): `upload.ts`.

Loops of the source are methods with loop invariants, each proved equal to a specification
function (`SelectTopArticles`, `ParseTopArticlesHtml`, `BuildQuery`, `ResolveLaunch`,
`PlanDetailPages`, `PlanGroupPages`, `GetAllFiles`, `BuildAll`). Step-by-step code without a loop
is a method proved equal to its function (`ResolveAuthor`, `CheckConfig`). Lemmas then state the properties of those functions. The
outside world is passed in as parameters:

- process arguments and environment variables, as a sequence and a map;
- the outcome of each `getAuthor` call, as a function from author id to result;
- the directory listing of the build tree, as an `Entry` tree;
- whether the build directory exists, as a boolean;
- whether each environment's build succeeds, as a function from environment to boolean.

## Model

| member | source | states |
|---|---|---|
| Utils.VideoIdOfWatchUrl | utils.ts:17 | For a watch URL `…v=<id>` (optionally followed by another `v=`), the `id` parameter sent is exactly `<id>`. |
| Utils.VideoIdMissing | utils.ts:17 | A URL without `v=` sends the text "undefined" as the id. |
| Utils.VideoIdParam | utils.ts:17 | The `id` sent never contains "v="; without "v=" in the URL it is the text "undefined". |
| Utils.ParseISODuration | utils.ts:28-35 | Text without "PT" parses as zero hours, minutes and seconds. |
| Utils.DurationRoundTrip | utils.ts:28-41 | `PT{h}H{m}M{s}S`, with any group left out and after any text without "PT", reads back as (h, m, s) with missing groups as 0. The minutes are h*60+m, whatever the seconds. |
| Utils.GroupsRoundTrip | utils.ts:29-34 | The three optional groups, each written or absent, are read back in turn, leaving the text after them. |
| Utils.ParseAfterFirstPT | utils.ts:29-30 | The pattern is matched at the first "PT" of the input. |
| Utils.DayDurationIsZero | utils.ts:29-40 | A duration with a day part (`P{d}DT…`) contains no "PT" and gives 0 minutes. |
| Utils.DurationToMinutes | utils.ts:38-41 | Minutes are sixty per hour plus the minutes; seconds are dropped, and text without "PT" gives 0. |
| Utils.ViewsInK | utils.ts:43-47 | Shown in thousands exactly when `parseInt(views)` is a number above 1000; otherwise the input text comes back unchanged. |
| Utils.ViewsInKOfCount | utils.ts:43-47 | A decimal count up to 1000 is shown as given; above 1000 it is shown in thousands. |
| Utils.ReadDurationInMinsFromWords | utils.ts:49-55 | A rate of 0 gives no number (division by zero). A positive rate gives the least m with m*rate ≥ tokens. A negative rate gives the matching ceiling bound. |
| Utils.TokenCountIsWordCount | utils.ts:53 | `trim().split(/\s+/).length` is the number of words, or 1 for blank text. |
| Utils.SplitCountsWords | utils.ts:53 | For text that starts and ends with a non-space character, the split has one piece per word. |
| Utils.WordCountOfTrim | utils.ts:53 | Trimming does not change the number of words. |
| Utils.WordCountSpacesAfter | utils.ts:53 | Trailing white space adds no words. |
| Utils.WordCountSpacesBefore | utils.ts:53 | Leading white space adds no words. |
| Utils.ReadingTimeAtLeastOne | utils.ts:49-55 | With a positive rate, every paragraph, the empty one included, reads in at least one minute. |
| Utils.ReadingMinutes | utils.ts:49-55 | With the default 200 words a minute, the time is at least one minute and the least whole number of minutes that covers every token. |
| Utils.TokenCount | utils.ts:53 | `split` always yields at least one piece, so the count is at least 1. |
| Utils.CeilingDivision | utils.ts:54 | `Math.ceil` of a positive division bounds the count from both sides. |
| Utils.NegativeDivision | utils.ts:54 | `Math.ceil` of a division by a negative rate, stated as bounds. |
| Utils.RowItem | utils.ts:120-152 | A row yields an item exactly when its path and view count are truthy and its path contains an allowed folder. |
| Utils.SelectTopArticles | utils.ts:116-156 | The loop with its early `break` at six items returns exactly the first six qualifying rows' items. |
| Utils.TopArticlesFromRows | utils.ts:116-156 | At most six items. The k-th comes from the k-th qualifying row, in report order, and no qualifying row is skipped. Each link is `https://therapytips.org` plus the path, each title falls back to "No title found", and views is `parseInt` of the count. |
| Api.DefaultError | api.ts:128 | Every default error message starts with "Failed to fetch ". |
| Api.DefaultErrorsDistinct | api.ts:128-190 | The five endpoints have pairwise different default messages. |
| Api.Unwrap | api.ts:127-131 | The result is data exactly when `success` holds, and then it carries `data`. Otherwise the error carries the server's truthy message, else the endpoint's default. |
| Api.UnwrapErrorMessage | api.ts:142-191 | A failure without a message throws a non-empty message that names its own endpoint, not another. |
| Api.Without | api.ts:117 | Dropping a name removes all its values and leaves every other name's values unchanged. |
| Api.SetParamValues | api.ts:117 | After `searchParams.set(name, value)`, `name` has exactly `[value]`, and every other name keeps its values. |
| Api.SetParam | api.ts:117 | The set name and value are present afterwards. |
| Api.LastValue | api.ts:116-117 | Defined exactly for the names some entry mentions, and then the value of the last entry with that name. |
| Api.BuildQuery | api.ts:114-119 | The `forEach` over the entries, when `params` is present, equals setting each entry in turn on an empty query. Absent params give an empty query. |
| Api.SetAllValues | api.ts:116-117 | After the loop, each mentioned name has exactly the value of its last entry. Unmentioned names are unchanged. |
| Api.SetAllDistinct | api.ts:116-117 | With the distinct keys `Object.entries` yields, the query lists the entries in order. |
| Api.AppendFresh | api.ts:117 | Setting an absent name appends it at the end. |
| Api.FirstViewsMatch | api.ts:225 | Returns the leftmost position where `(\d+)\s+views` matches, or none when it matches nowhere. |
| Api.CaptionViewsOfCount | api.ts:223-226 | A caption "<n> views…" yields n. |
| Api.CaptionWithoutDigits | api.ts:225-226 | A caption without digits yields 0 views. |
| Api.CaptionViews | api.ts:225-226 | No match of `(\d+)\s+views` gives 0 views. |
| Api.ParagraphItem | api.ts:216-234 | A paragraph yields an item exactly when it has an anchor and a caption, a non-empty trimmed title and a non-empty href. The item carries that title, the href and the caption's views. |
| Api.ParseTopArticlesHtml | api.ts:213-238 | The `forEach` over the paragraphs returns exactly the items of the accepted paragraphs. |
| Api.ParsedItemsFromParagraphs | api.ts:213-238 | There are no more items than paragraphs, each from an accepted paragraph, kept in paragraph order. |
| Build.EnvOfName | index.ts:58 | A name is accepted exactly when it is "dev", "stage" or "prod", and the result names it back. |
| Build.FirstEnvArg | index.ts:22 | Returns the leftmost argument starting with "--env=", or none. |
| Build.EnvArgumentOf | index.ts:22 | The value of the first "--env=" argument is the text after "=", when it holds no further "=". |
| Build.EnvArgument | index.ts:22 | No "--env=" argument gives no value; a value never contains "=", being the piece between the first and second "=". |
| Build.VarsTarget | index.ts:66-75 | dev exactly when either variable equals "development"; else stage exactly when either equals "staging"; else prod exactly when either equals "production"; otherwise nothing. |
| Build.UrlTarget | index.ts:77-86 | Nothing for an absent or empty URL. Otherwise dev exactly when it contains "localhost" or "3000"; else stage exactly when it contains "staging"; else prod exactly when it contains "api.therapytips.org"; nothing exactly when it contains none of them. |
| Build.ResolveLaunch | index.ts:16-89 | The flag tests, the `find` and the three if-chains equal the three-stage rule `LaunchOf`. |
| Build.LaunchOf | index.ts:16-89 | Help is shown exactly when asked for. An invalid environment is the truthy `--env=` value that names none. Otherwise one environment or all three are built. |
| Build.HelpFirst | index.ts:19-46 | `--help` or `-h` wins over everything, an invalid `--env=` included, and exits with 0. |
| Build.InvalidEnvironmentExits | index.ts:57-63 | A non-empty `--env=` value other than dev, stage and prod exits with 1. |
| Build.ExplicitEnvironmentWins | index.ts:57-60 | A valid `--env=` value alone decides the single environment built. |
| Build.VariablesBeforeUrl | index.ts:66-89 | Without `--env=`, NODE_ENV/BUILD_ENV decide when they name an environment. Only otherwise is the URL consulted, and if nothing matches all three are built. |
| Build.DevelopmentFirst | index.ts:68 | "development" in either variable beats any other value in the other. |
| Build.NotDevUrl | index.ts:79 | A URL with no "l" and no "3" matches neither dev rule. |
| Build.StagingUrlIsStage | index.ts:77-86 | The staging API host selects stage (it mentions "staging" before the prod host is checked). |
| Build.ProductionUrlIsProd | index.ts:77-86 | The production API host selects prod. |
| Build.BuildOrder | index.ts:89 | Builds exactly one environment, or all three in the order dev, stage, prod. |
| Build.ConfigFor | index.ts:106-125 | Assets are minified exactly when the environment is not dev; debug info is included exactly when it is not prod. A truthy API_BASE_URL overrides the per-environment default. |
| Build.ConfigForKey | index.ts:127 | An unknown key falls back to the dev configuration; a known key gets its own. |
| Build.PhotosSameEverywhere | index.ts:104-124 | Every environment of a run gets the same photo setting. |
| Build.PhotosNeedExactTrue | index.ts:104 | Only the exact text "true" in COPY_PHOTOS or INCLUDE_PHOTOS turns copying on; any other value leaves it to the command-line flags. |
| Build.OutputDir | index.ts:100 | The output directory is "./builds/" followed by the environment name, so it lies under "./builds/". |
| Build.BuiltCount | index.ts:601-604 | The number of builds that complete: every environment before it succeeds, and the one at that position, if any, fails. |
| Build.BuildAll | index.ts:601-622 | The environments are built in the given order, each into its own output directory, until the first failed build. The directories of the completed builds are returned. The exit code is 1 after a failed build (the `.catch`) and 0 when all complete. |
| Build.OutputDirsDistinct | index.ts:100 | Distinct environments build into distinct directories. |
| Build.ListingOutputs | index.ts:331-426 | Each non-landing page is written as its page name plus ".html", and no two listing pages write the same file. |
| Build.TemplateFor | index.ts:522-524 | Personality tests use the personality-test template exactly; every other type uses the article template. |
| Build.AuthorFor | index.ts:478-498 | Without a truthy author id, or when `getAuthor` throws, the fallback is used. A successful lookup gives the author's name with bio and image defaulting to "". |
| Build.ResolveAuthor | index.ts:478-498 | The `let`, the overwrite on success and the swallowed error equal `AuthorFor`. |
| Build.FirstQuestionSet | index.ts:512 | Returns the first question set with the article's id, or none. |
| Build.QuestionsFor | index.ts:512 | No questions without an id or without a matching set. |
| Build.QuestionsFromFirstMatch | index.ts:512 | The questions come from the first matching set, whatever follows it. |
| Build.DetailPageFor | index.ts:459-475 | The file is `<output>/<content type>/<slug>.html`, the template is the content type's, the author record is `AuthorFor` of the lookup and the questions are `QuestionsFor` the article id. |
| Build.DistinctSlugsDistinctFiles | index.ts:474-475 | Different slugs of one content type are written to different files. |
| Build.GroupPages | index.ts:471-475 | One page per article of a content type, in order. |
| Build.DetailPlanCount | index.ts:451-475 | The plan holds one page per fetched article over all content types. |
| Build.DetailPlanInSourceOrder | index.ts:451-475 | The pages come group by group in the order articles, advice, interviews, personality tests. |
| Build.DetailPlanSnoc | index.ts:458-475 | One more content type adds its pages after those already planned. |
| Build.PlanDetailPages | index.ts:451-546 | The nested loop over content types and articles equals the plan, group after group. |
| Build.PlanGroupPages | index.ts:471-543 | The inner loop equals the group's pages. |
| Upload.FirstPositional | upload.ts:48 | Returns the first argument not starting with "-", or none. |
| Upload.UploadTarget | upload.ts:48 | The target is never empty: "prod", or an argument that does not start with "-". |
| Upload.TargetAfterOptions | upload.ts:48 | The first non-option argument names the target, whatever follows. |
| Upload.TargetDefaultsToProd | upload.ts:48 | Options alone upload prod. |
| Upload.EnvFile | upload.ts:75-77 | dev, stage and prod report `.env.development`, `.env.staging` and `.env.production`, each exactly. |
| Upload.DefaultRemotePath | upload.ts:87 | The default remote path is "/" for prod and "/<env>" otherwise. |
| Upload.ConfigFrom | upload.ts:82-89 | Host, user and password come from the variables. The port is `parseInt` of FTP_PORT, else of "21". The remote path is the truthy FTP_REMOTE_PATH, else the default. `secure` holds exactly when FTP_SECURE is "true". |
| Upload.DefaultPort | upload.ts:84 | Without FTP_PORT the port is 21. |
| Upload.CheckConfig | upload.ts:99-102 | The three `push`es equal `MissingKeys`. |
| Upload.MissingKeysInOrder | upload.ts:99-102 | The missing settings are reported in the order FTP_HOST, FTP_USER, FTP_PASSWORD. |
| Upload.MissingKeys | upload.ts:99-102 | At most three names are reported, each one of FTP_HOST, FTP_USER, FTP_PASSWORD. |
| Upload.MissingKeysExact | upload.ts:99-110 | Each setting is reported exactly when it is absent or empty. The report is empty exactly when all three are set. |
| Upload.Mask | upload.ts:117 | The masked password has one "*" per character. |
| Upload.FilesIn | upload.ts:123-136 | Every collected path lies under `dir + "/"`. |
| Upload.GetAllFiles | upload.ts:123-136 | The recursive walk returns the accumulator followed by the tree's files in listing order, depth first. |
| Upload.FilesInTotals | upload.ts:123-136 | The walk collects as many files as the tree has, with as many bytes. |
| Upload.TotalSizeAppend | upload.ts:178 | The size sum distributes over concatenation. |
| Upload.TotalSize | upload.ts:178 | The sum is at least the size of each file, and 0 for no files. |
| Upload.StripLeadingSeparators | upload.ts:151 | Removes exactly the leading run of `/` and `\`. |
| Upload.ForwardSlashes | upload.ts:153 | Each backslash becomes "/"; every other character is unchanged. |
| Upload.RelativePath | upload.ts:143-153 | The relative path has no backslash and does not start with "/". |
| Upload.RelativeOfTail | upload.ts:149-153 | For a file under the build path, the relative path is the rest after it, with separators stripped and slashes made forward. |
| Upload.RelativeRoundTrip | upload.ts:149-153 | `build + "/" + rel` gives back `rel`. |
| Upload.CollapseSlashes | upload.ts:157 | The result has no double slash, keeps the first character and is empty only for empty input. |
| Upload.CollapseSingle | upload.ts:157 | Text without double slashes is left unchanged. |
| Upload.PosixJoin | upload.ts:157 | A join is non-empty and has no double slash. |
| Upload.JoinRoot | upload.ts:157 | Joining onto "/" gives "/" + rel. |
| Upload.JoinDirectory | upload.ts:157 | Joining onto a directory without a trailing slash puts exactly one "/" between. |
| Upload.ShowSize | upload.ts:167-171 | MB exactly above 1024*1024, KB exactly in (1024, 1024*1024], bytes otherwise. The byte text ends in " B" and reads back as the size. |
| Upload.DryRun | upload.ts:163-184 | One line per file, in order, each the file's mapping and its shown size; the file count; and the total shown as `ShowSize` of the sum. |
| Upload.MissingConfigStops | upload.ts:99-110 | A missing FTP setting stops with 1 before any dry run or transfer. |
| Upload.DryRunCountsTree | upload.ts:175-184 | The dry run reports the tree's file count and total bytes. |
| Upload.TransferMapsEveryFile | upload.ts:140-159 | Every file of the tree is mapped, in order. Each mapping keeps the local path and goes to the remote path joined with the path below the build directory. |
| Upload.Mappings | upload.ts:143-159 | One mapping per collected file, in order. Each keeps the file's own local path, and its remote path is non-empty with no doubled slash. |
| Upload.MappingOf | upload.ts:155-158 | A file's mapping keeps its local path, and its remote path is non-empty with no doubled slash, as `path.posix.join` leaves it. |
| Upload.MappingsOfCollected | upload.ts:140-157 | Each file below the build path maps to its own local path and to the remote directory joined with the rest of its path. |
| Upload.PlanUpload | upload.ts:10-186 | A dry run or a transfer happens only without help, for a valid and built target whose three FTP settings are all present. Such a run always proceeds: to a dry run exactly when `--dry-run` or `-d` is given, to a transfer otherwise. |
| Upload.UploadStops | upload.ts:16-70 | Help exits with 0 before anything else. An invalid target, then a missing build directory, exit with 1. |
| Text.Split | utils.ts:17 | `split` with a literal: the pieces join back to the input, and no piece contains the separator. |
| Text.ParseInt | upload.ts:84 | `parseInt` gives no number (NaN) exactly when no digit follows the leading white space and the optional sign. |
| Text.ParseIntSigned | upload.ts:84 | After leading white space, "-" followed by a written count reads as its negation and "+" as the count, whatever non-digit text follows. |
| Text.ParseIntUnsignedAfterBlank | upload.ts:84 | After leading white space, a written count with no sign reads back as the count, whatever non-digit text follows. |
| Text.ParseIntSkipsBlank | upload.ts:84 | Leading white space does not change what `parseInt` reads. |
| Text.ParseIntOfNat | api.ts:226 | `parseInt` reads back a written count, whatever non-digit text follows. |
| Text.TrimEmptyIffBlank | api.ts:220 | A trimmed text is empty exactly when the text is blank. |

## Left out

- Network I/O: the YouTube, analytics, API and trending-page fetches, and the FTP client (`ytOfficialData`'s request, `getTopArticles`' report request, every `fetch`). Their results are parameters of the model.
- `ytOfficialData`: only the `id` parameter is modelled. The key and part parameters are constants, and the `_` timestamp comes from a clock.
- The request URLs of the API client (`${API_URL}/articles/slug/${slug}` and so on) are not modelled. The request itself is left out.
- `markdownToSanitizedHtml`, EJS rendering, JSDOM/DOMParser document parsing: foreign libraries. A parsed paragraph is given as its first anchor and its first `small em` text.
- File system effects: creating `./builds`, removing and recreating output directories, and copying CSS, images and photos. The upload script's `existsSync` is a boolean input and `readdirSync`/`statSync` are an `Entry` tree. What makes a build fail (a write failure, a rejected fetch or render) is not modelled: `BuildAll` takes each build's success as an input.
- The actual and simulated upload loops, progress percentages (`Math.round`), `ensureDir` and console logging.
- Utils.ViewsInK: the `toFixed(1)` text of the thousands label is not produced; only the count it formats is kept.
- Upload.ShowSize: the `toFixed(2)` megabyte and kilobyte texts are not produced; only the unit chosen is kept.
- Text.ParseInt: radix 10 only. `parseInt(views)` and `parseInt(FTP_PORT || "21")` pass external text without a radix, and that text is assumed to be decimal: JavaScript reads a "0x" prefix as hexadecimal (FTP_PORT "0x15" is port 21) where the model reads 0. Digits beyond exact double precision are not modelled either.
- Utils.ReadDurationInMinsFromWords: the rate is an integer, so a fractional rate cannot be given. A zero rate, for which JavaScript returns Infinity (the token count is at least 1), gives no result.
- Build.QuestionsFor: the questions are the `questions_json` values in the order `Object.values` yields them. That order (integer-like keys first) is taken as given. A question record missing `questions_json` gives no questions, as `|| {}` does.
- Build.AuthorFor: a fetched author is assumed to have a `name`, as the `Author` type declares.
- Api.BuildQuery: parameter values are taken as already converted to strings, e.g. `limit: 12` as "12".
- Upload.RelativePath: `path.resolve` of the two paths (making them absolute, and resolving "." and "..") is not modelled. The build path and the collected paths are given already resolved, and the files lie below the build path.
- Upload.PosixJoin: the dot-segment normalisation of `path.posix.join` is not modelled. Segments are plain names.
- Build.ConfigForKey: looking up prototype keys such as "constructor" on the config object is not modelled. Only the three environment keys and "not one of them" are.
- The date arithmetic for `date_from`/`date_to`, and the build timestamp: clocks.
- The fixed lists of hand-picked slugs and video URLs fetched for the landing and listing pages are data, not logic.
- `personality-tests-data.ts` is not part of this model: it is static question data.
- Strings are sequences of Unicode scalar values, not UTF-16 code units. A character outside the Basic Multilingual Plane is one element here and two in JavaScript, which shifts `trim`, `split` and `indexOf` positions.
- Upload.Mask: gives one "*" per Unicode scalar value, where the script gives one per UTF-16 code unit (two for a character outside the Basic Multilingual Plane).
- The upload script's `--verbose` flag only changes what is logged, so it is not modelled.
- Concurrency: `Promise.all` and `await` ordering. The model takes the fetched results in array order.

Behaviour of the code worth noting, which the model keeps:

- NODE_ENV and BUILD_ENV select an environment only when they equal "development", "staging" or
  "production" exactly (index.ts:68-72). The build help text calls them the target environment
  without saying so.
- `./builds` is created at start-up, before the arguments are read (index.ts:9-13), so even a run
  with `--help` creates it.
- The API client reads `API_BASE_URL` with its own fallback `http://localhost:4000/api` (api.ts:1).
  The build configuration's `apiBaseUrl` falls back to other addresses (index.ts:110-122), and
  neither value is passed to the other.
- The upload help text says the FTP settings come "in .env.development, .env.staging,
  .env.production" (upload.ts:30). The script computes that file name only for its messages
  (upload.ts:75-79, 106) and reads the settings from the process environment (upload.ts:82-89).
- The upload script checks FTP_HOST, FTP_USER and FTP_PASSWORD before it looks at `--dry-run`
  (upload.ts:99-110, 163), so a dry run without them stops with 1.
- An empty `--env=` value is falsy (index.ts:22), so the build picks no explicit environment and
  goes on to NODE_ENV/BUILD_ENV instead of rejecting the argument.
- An empty first positional argument to the upload script is falsy, so the target falls back to
  "prod" (upload.ts:47), as a missing one does.
