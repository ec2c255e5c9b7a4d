/** The build script (index.ts): which environments to build, from the command line and the
    process environment; the configuration each environment gets; the listing pages; and, for
    every fetched article, the detail page to write (file, template, author record and test
    questions). Fetching, rendering and writing are outside the model: fetched data and the
    author lookup are inputs, and a plan of what is written is the output. */
module Build {
  import opened Wrappers
  import opened Text
  import opened Seqs

  // ---------------------------------------------------------------------------------------
  // Environments

  datatype Env = Dev | Stage | Prod

  function EnvName(e: Env): string {
    match e
    case Dev => "dev"
    case Stage => "stage"
    case Prod => "prod"
  }

  /** `["dev", "stage", "prod"].includes(name)`, as the environment the name denotes. */
  function EnvOfName(name: string): (e: Option<Env>)
    ensures e.Some? ==> EnvName(e.value) == name
    ensures e.None? ==> forall x: Env :: EnvName(x) != name
  {
    if name == "dev" then Some(Dev)
    else if name == "stage" then Some(Stage)
    else if name == "prod" then Some(Prod)
    else None
  }

  /** The order in which all environments are built when none is singled out. */
  const AllEnvironments := [Dev, Stage, Prod]

  /** The process environment. */
  type Environ = map<string, string>

  /** `process.env[name]`. */
  function Var(environ: Environ, name: string): Option<string> {
    if name in environ then Some(environ[name]) else None
  }

  predicate HelpRequested(args: seq<string>) {
    "--help" in args || "-h" in args
  }

  predicate PhotosFlag(args: seq<string>) {
    "--copy-photos" in args || "--include-photos" in args || "-p" in args
  }

  // ---------------------------------------------------------------------------------------
  // The --env argument

  const EnvPrefix := "--env="

  /** The index of the first argument at or after `from` that starts with "--env=". */
  function FirstEnvArg(args: seq<string>, from: nat): (r: Option<nat>)
    ensures r.Some? ==> from <= r.value < |args| && StartsWith(args[r.value], EnvPrefix)
    ensures r.Some? ==> forall j :: from <= j < r.value ==> !StartsWith(args[j], EnvPrefix)
    ensures r.None? ==> forall j :: from <= j < |args| ==> !StartsWith(args[j], EnvPrefix)
    decreases |args| - from
  {
    if from >= |args| then None
    else if StartsWith(args[from], EnvPrefix) then Some(from)
    else FirstEnvArg(args, from + 1)
  }

  /** `args.find(arg => arg.startsWith("--env="))?.split("=")[1]`. */
  function EnvArgument(args: seq<string>): (arg: Option<string>)
    ensures FirstEnvArg(args, 0).None? ==> arg.None?
    ensures arg.Some? ==> !Contains(arg.value, "=")
  {
    match FirstEnvArg(args, 0)
    case Some(i) => Piece(args[i], "=", 1)
    case None => None
  }

  /** The value of the first "--env=" argument is the text after the "=", up to a further "=". */
  lemma EnvArgumentOf(pre: seq<string>, value: string, post: seq<string>)
    requires forall j :: 0 <= j < |pre| ==> !StartsWith(pre[j], EnvPrefix)
    requires !Contains(value, "=")
    ensures EnvArgument(pre + [EnvPrefix + value] + post) == Some(value)
  {
    var args := pre + [EnvPrefix + value] + post;
    assert args[|pre|] == EnvPrefix + value;
    assert StartsWith(args[|pre|], EnvPrefix) by { assert (EnvPrefix + value)[..|EnvPrefix|] == EnvPrefix; }
    assert forall j :: 0 <= j < |pre| ==> args[j] == pre[j];
    assert FirstEnvArg(args, 0) == Some(|pre|);
    assert !Contains("--env", "=") by { NoCharNoContains("--env", "=", 0); }
    assert EnvPrefix + value == "--env" + "=" + value + [];
    SecondPiece("--env", "=", value, []);
  }

  /** Text glued between two others is contained in the result. */
  lemma ContainsMiddle(a: string, b: string, c: string)
    ensures Contains(a + b + c, b)
  {
    assert (a + b + c)[|a|..|a| + |b|] == b;
    ContainsAt(a + b + c, b, |a|);
  }

  // ---------------------------------------------------------------------------------------
  // Resolving the target environment

  /** Step 2: NODE_ENV or BUILD_ENV equal to "development", then "staging", then "production". */
  function VarsTarget(nodeEnv: Option<string>, buildEnv: Option<string>): (target: Option<Env>)
    ensures target == Some(Dev) <==> nodeEnv == Some("development") || buildEnv == Some("development")
    ensures target == Some(Stage) <==>
      !(nodeEnv == Some("development") || buildEnv == Some("development"))
      && (nodeEnv == Some("staging") || buildEnv == Some("staging"))
    ensures target == Some(Prod) <==>
      !(nodeEnv == Some("development") || buildEnv == Some("development"))
      && !(nodeEnv == Some("staging") || buildEnv == Some("staging"))
      && (nodeEnv == Some("production") || buildEnv == Some("production"))
    ensures target.None? <==>
      !(nodeEnv == Some("development") || buildEnv == Some("development"))
      && !(nodeEnv == Some("staging") || buildEnv == Some("staging"))
      && !(nodeEnv == Some("production") || buildEnv == Some("production"))
  {
    if nodeEnv == Some("development") || buildEnv == Some("development") then Some(Dev)
    else if nodeEnv == Some("staging") || buildEnv == Some("staging") then Some(Stage)
    else if nodeEnv == Some("production") || buildEnv == Some("production") then Some(Prod)
    else None
  }

  /** Step 3: the API base URL mentions "localhost" or "3000", else "staging", else
      "api.therapytips.org". */
  function UrlTarget(apiBaseUrl: Option<string>): (target: Option<Env>)
    ensures !Truthy(apiBaseUrl) ==> target.None?
    ensures target == Some(Dev) <==>
      Truthy(apiBaseUrl) && (Contains(apiBaseUrl.value, "localhost") || Contains(apiBaseUrl.value, "3000"))
    ensures target == Some(Stage) <==>
      Truthy(apiBaseUrl) && !(Contains(apiBaseUrl.value, "localhost") || Contains(apiBaseUrl.value, "3000"))
      && Contains(apiBaseUrl.value, "staging")
    ensures target == Some(Prod) <==>
      Truthy(apiBaseUrl) && !(Contains(apiBaseUrl.value, "localhost") || Contains(apiBaseUrl.value, "3000"))
      && !Contains(apiBaseUrl.value, "staging") && Contains(apiBaseUrl.value, "api.therapytips.org")
    ensures target.None? <==>
      !Truthy(apiBaseUrl)
      || (!(Contains(apiBaseUrl.value, "localhost") || Contains(apiBaseUrl.value, "3000"))
          && !Contains(apiBaseUrl.value, "staging") && !Contains(apiBaseUrl.value, "api.therapytips.org"))
  {
    if !Truthy(apiBaseUrl) then None
    else
      var url := apiBaseUrl.value;
      if Contains(url, "localhost") || Contains(url, "3000") then Some(Dev)
      else if Contains(url, "staging") then Some(Stage)
      else if Contains(url, "api.therapytips.org") then Some(Prod)
      else None
  }

  /** How the script continues after reading its arguments. */
  datatype Launch = ShowHelp | InvalidEnvironment(value: string) | BuildEnvironments(environments: seq<Env>)

  /** The status the process exits with before building, if it does. */
  function ExitCode(launch: Launch): Option<int> {
    match launch
    case ShowHelp => Some(0)
    case InvalidEnvironment(_) => Some(1)
    case BuildEnvironments(_) => None
  }

  /** The three-stage rule: help first; then an explicit, valid `--env=` value; then NODE_ENV and
      BUILD_ENV; then the API base URL; with nothing resolved, every environment. */
  function LaunchOf(args: seq<string>, environ: Environ): (launch: Launch)
    ensures launch.ShowHelp? <==> HelpRequested(args)
    ensures launch.InvalidEnvironment? ==>
      Truthy(EnvArgument(args)) && launch.value == EnvArgument(args).value && EnvOfName(launch.value).None?
    ensures launch.BuildEnvironments? ==> |launch.environments| == 1 || launch.environments == AllEnvironments
  {
    if HelpRequested(args) then ShowHelp
    else
      var arg := EnvArgument(args);
      if Truthy(arg) && EnvOfName(arg.value).None? then InvalidEnvironment(arg.value)
      else
        var target :=
          if Truthy(arg) then EnvOfName(arg.value)
          else if VarsTarget(Var(environ, "NODE_ENV"), Var(environ, "BUILD_ENV")).Some? then
            VarsTarget(Var(environ, "NODE_ENV"), Var(environ, "BUILD_ENV"))
          else UrlTarget(Var(environ, "API_BASE_URL"));
        BuildEnvironments(match target case Some(e) => [e] case None => AllEnvironments)
  }

  /** The top of index.ts: the flags, the `find` for "--env=", and `targetEnvironment` set by
      successive if-chains. */
  method ResolveLaunch(args: seq<string>, environ: Environ) returns (launch: Launch)
    ensures launch == LaunchOf(args, environ)
  {
    var helpFlag := "--help" in args || "-h" in args;
    var i := 0;
    while i < |args| && !StartsWith(args[i], EnvPrefix)
      invariant 0 <= i <= |args|
      invariant forall j :: 0 <= j < i ==> !StartsWith(args[j], EnvPrefix)
    {
      i := i + 1;
    }
    var envArg := if i < |args| then Piece(args[i], "=", 1) else None;
    assert envArg == EnvArgument(args);
    if helpFlag {
      return ShowHelp;
    }
    var nodeEnv, buildEnv, apiBaseUrl := Var(environ, "NODE_ENV"), Var(environ, "BUILD_ENV"), Var(environ, "API_BASE_URL");
    var targetEnvironment: Option<Env> := None;
    if Truthy(envArg) {
      if EnvOfName(envArg.value).Some? {
        targetEnvironment := EnvOfName(envArg.value);
      } else {
        return InvalidEnvironment(envArg.value);
      }
    }
    if targetEnvironment.None? {
      if nodeEnv == Some("development") || buildEnv == Some("development") {
        targetEnvironment := Some(Dev);
      } else if nodeEnv == Some("staging") || buildEnv == Some("staging") {
        targetEnvironment := Some(Stage);
      } else if nodeEnv == Some("production") || buildEnv == Some("production") {
        targetEnvironment := Some(Prod);
      }
    }
    if targetEnvironment.None? && Truthy(apiBaseUrl) {
      var url := apiBaseUrl.value;
      if Contains(url, "localhost") || Contains(url, "3000") {
        targetEnvironment := Some(Dev);
      } else if Contains(url, "staging") {
        targetEnvironment := Some(Stage);
      } else if Contains(url, "api.therapytips.org") {
        targetEnvironment := Some(Prod);
      }
    }
    launch := BuildEnvironments(if targetEnvironment.Some? then [targetEnvironment.value] else AllEnvironments);
  }

  /** Help wins over everything, an invalid `--env=` included, and exits with status 0. */
  lemma HelpFirst(args: seq<string>, environ: Environ)
    requires HelpRequested(args)
    ensures LaunchOf(args, environ) == ShowHelp && ExitCode(LaunchOf(args, environ)) == Some(0)
  {
  }

  /** A non-empty `--env=` value other than dev, stage and prod stops the script with status 1. */
  lemma InvalidEnvironmentExits(pre: seq<string>, value: string, post: seq<string>, environ: Environ)
    requires !HelpRequested(pre + [EnvPrefix + value] + post)
    requires forall j :: 0 <= j < |pre| ==> !StartsWith(pre[j], EnvPrefix)
    requires value != "" && !Contains(value, "=") && EnvOfName(value).None?
    ensures LaunchOf(pre + [EnvPrefix + value] + post, environ) == InvalidEnvironment(value)
    ensures ExitCode(LaunchOf(pre + [EnvPrefix + value] + post, environ)) == Some(1)
  {
    EnvArgumentOf(pre, value, post);
  }

  /** A valid `--env=` value decides alone: the process environment plays no part. */
  lemma ExplicitEnvironmentWins(pre: seq<string>, e: Env, post: seq<string>, environ: Environ)
    requires !HelpRequested(pre + [EnvPrefix + EnvName(e)] + post)
    requires forall j :: 0 <= j < |pre| ==> !StartsWith(pre[j], EnvPrefix)
    ensures LaunchOf(pre + [EnvPrefix + EnvName(e)] + post, environ) == BuildEnvironments([e])
  {
    assert !Contains(EnvName(e), "=") by { NoCharNoContains(EnvName(e), "=", 0); }
    EnvArgumentOf(pre, EnvName(e), post);
  }

  /** Without an `--env=` value, NODE_ENV/BUILD_ENV decide when they name an environment, and
      the API base URL is consulted only when they do not. */
  lemma VariablesBeforeUrl(args: seq<string>, environ: Environ)
    requires !HelpRequested(args) && !Truthy(EnvArgument(args))
    ensures var vars := VarsTarget(Var(environ, "NODE_ENV"), Var(environ, "BUILD_ENV"));
      && (vars.Some? ==> LaunchOf(args, environ) == BuildEnvironments([vars.value]))
      && (vars.None? ==>
            LaunchOf(args, environ) ==
              (match UrlTarget(Var(environ, "API_BASE_URL"))
               case Some(e) => BuildEnvironments([e])
               case None => BuildEnvironments(AllEnvironments)))
  {
  }

  /** "development" in either variable beats any other value, e.g. NODE_ENV=production with
      BUILD_ENV=development builds dev. */
  lemma DevelopmentFirst(nodeEnv: Option<string>)
    ensures VarsTarget(nodeEnv, Some("development")) == Some(Dev)
    ensures VarsTarget(Some("production"), Some("development")) == Some(Dev)
  {
  }

  /** A URL without an "l" and without a "3" selects neither rule of the dev step. */
  lemma NotDevUrl(url: string)
    requires 'l' !in url && '3' !in url
    ensures !Contains(url, "localhost") && !Contains(url, "3000")
  {
    NoCharNoContains(url, "localhost", 0);
    NoCharNoContains(url, "3000", 0);
  }

  /** The staging API host, https://staging-api.therapytips.org, selects stage: it mentions
      neither "localhost" nor "3000". */
  lemma StagingUrlIsStage(url: string)
    requires url == "https://" + "staging" + "-api.therapytips.org"
    ensures UrlTarget(Some(url)) == Some(Stage)
  {
    NotDevUrl(url);
    ContainsMiddle("https://", "staging", "-api.therapytips.org");
  }

  /** The production API host, https://api.therapytips.org, selects prod. */
  lemma ProductionUrlIsProd(url: string)
    requires url == "https://" + "api.therapytips.org" + ""
    ensures UrlTarget(Some(url)) == Some(Prod)
  {
    NotDevUrl(url);
    NoCharNoContains(url, "staging", 5);
    ContainsMiddle("https://", "api.therapytips.org", "");
  }

  /** What gets built: exactly the resolved environment, or all three in the order dev, stage,
      prod. */
  lemma BuildOrder(args: seq<string>, environ: Environ)
    requires LaunchOf(args, environ).BuildEnvironments?
    ensures var envs := LaunchOf(args, environ).environments;
      |envs| == 1 || envs == [Dev, Stage, Prod]
  {
  }

  // ---------------------------------------------------------------------------------------
  // Configuration

  datatype Config = Config(minifyAssets: bool, includeDebugInfo: bool, apiBaseUrl: string, copyPhotos: bool)

  function DefaultApiBaseUrl(e: Env): string {
    match e
    case Dev => "http://localhost:3000"
    case Stage => "https://staging-api.therapytips.org"
    case Prod => "https://api.therapytips.org"
  }

  /** `shouldCopyPhotos`: a photo flag on the command line, or COPY_PHOTOS or INCLUDE_PHOTOS set
      to exactly "true". */
  function ShouldCopyPhotos(args: seq<string>, environ: Environ): bool {
    PhotosFlag(args) || Var(environ, "COPY_PHOTOS") == Some("true") || Var(environ, "INCLUDE_PHOTOS") == Some("true")
  }

  /** The configuration of one environment. */
  function ConfigFor(e: Env, args: seq<string>, environ: Environ): (c: Config)
    ensures !c.minifyAssets <==> e == Dev
    ensures !c.includeDebugInfo <==> e == Prod
    ensures Truthy(Var(environ, "API_BASE_URL")) ==> c.apiBaseUrl == environ["API_BASE_URL"]
    ensures !Truthy(Var(environ, "API_BASE_URL")) ==> c.apiBaseUrl == DefaultApiBaseUrl(e)
    ensures c.copyPhotos == ShouldCopyPhotos(args, environ)
  {
    var url := Var(environ, "API_BASE_URL");
    var apiBaseUrl := if Truthy(url) then url.value else DefaultApiBaseUrl(e);
    Config(e != Dev, e != Prod, apiBaseUrl, ShouldCopyPhotos(args, environ))
  }

  /** `config[environment] || config.dev`: a key that names no environment gets the dev
      configuration. */
  function ConfigForKey(key: string, args: seq<string>, environ: Environ): (c: Config)
    ensures EnvOfName(key).None? ==> c == ConfigFor(Dev, args, environ)
    ensures forall e: Env :: key == EnvName(e) ==> c == ConfigFor(e, args, environ)
  {
    ConfigFor(EnvOfName(key).GetOr(Dev), args, environ)
  }

  /** Every environment of one run gets the same photo setting: it depends on the command
      line and the variables only. */
  lemma PhotosSameEverywhere(e1: Env, e2: Env, args: seq<string>, environ: Environ)
    ensures ConfigFor(e1, args, environ).copyPhotos == ConfigFor(e2, args, environ).copyPhotos
  {
  }

  /** Only the exact text "true" in COPY_PHOTOS or INCLUDE_PHOTOS turns photo copying on;
      any other value ("1", "TRUE", "yes", "") leaves the command-line flags to decide. */
  lemma PhotosNeedExactTrue(args: seq<string>, environ: Environ, value: string)
    requires value != "true"
    ensures ShouldCopyPhotos(args, environ["COPY_PHOTOS" := value]["INCLUDE_PHOTOS" := value]) == PhotosFlag(args)
    ensures ShouldCopyPhotos(args, environ["COPY_PHOTOS" := "true"])
    ensures ShouldCopyPhotos(args, environ["INCLUDE_PHOTOS" := "true"])
  {
  }

  /** The directory an environment is built into. */
  function OutputDir(e: Env): (dir: string)
    ensures dir == "./builds/" + EnvName(e)
    ensures StartsWith(dir, "./builds/")
  {
    "./builds/" + EnvName(e)
  }

  /** The number of environments built before the first failed build: `succeeds` says whether
      `performBuild` completes for an environment or rejects. */
  function BuiltCount(environments: seq<Env>, succeeds: Env -> bool): (k: nat)
    ensures k <= |environments|
    ensures forall i :: 0 <= i < k ==> succeeds(environments[i])
    ensures k < |environments| ==> !succeeds(environments[k])
  {
    if environments == [] || !succeeds(environments[0]) then 0
    else 1 + BuiltCount(environments[1..], succeeds)
  }

  /** `buildAll` and its `.catch`: the environments are built one after another, in the given
      order; a rejected build ends the loop, so no later environment is built, and the process
      exits with status 1. The completed builds' output directories are returned. */
  method BuildAll(environments: seq<Env>, succeeds: Env -> bool) returns (outputDirs: seq<string>, exitCode: int)
    ensures |outputDirs| == BuiltCount(environments, succeeds)
    ensures forall i :: 0 <= i < |outputDirs| ==> outputDirs[i] == OutputDir(environments[i])
    ensures exitCode == (if BuiltCount(environments, succeeds) == |environments| then 0 else 1)
  {
    outputDirs := [];
    var i := 0;
    while i < |environments| && succeeds(environments[i])
      invariant 0 <= i <= |environments|
      invariant forall k :: 0 <= k < i ==> succeeds(environments[k])
      invariant |outputDirs| == i
      invariant forall k :: 0 <= k < i ==> outputDirs[k] == OutputDir(environments[k])
    {
      outputDirs := outputDirs + [OutputDir(environments[i])];
      i := i + 1;
    }
    exitCode := if i == |environments| then 0 else 1;
  }

  /** Distinct environments are built into distinct directories. */
  lemma OutputDirsDistinct(e1: Env, e2: Env)
    requires e1 != e2
    ensures OutputDir(e1) != OutputDir(e2)
  {
    var p := "./builds/";
    assert OutputDir(e1)[|p|..] == EnvName(e1) && OutputDir(e2)[|p|..] == EnvName(e2);
  }

  // ---------------------------------------------------------------------------------------
  // Listing pages

  /** Which fetched list a listing page shows besides the trending items. */
  datatype Listing =
    | Featured           // the hand-picked advice, articles, personality tests and interviews
    | LatestArticles | LatestInterviews | LatestAdvice | LatestPersonalityTests
    | TrendingOnly       // the trending items alone

  datatype ListingPage = ListingPage(template: string, output: string, page: string, listing: Listing)

  /** The six pages rendered from the shared template data, in order. */
  const ListingPages := [
    ListingPage("./views/landing-page.ejs", "index.html", "landing", Featured),
    ListingPage("./views/articles-page.ejs", "articles.html", "articles", LatestArticles),
    ListingPage("./views/interviews-page.ejs", "interviews.html", "interviews", LatestInterviews),
    ListingPage("./views/advice-page.ejs", "advice.html", "advice", LatestAdvice),
    ListingPage("./views/personalitytests-page.ejs", "personality-tests.html", "personality-tests", LatestPersonalityTests),
    ListingPage("./views/book-publication.ejs", "book-publication.html", "book-publication", TrendingOnly)
  ]

  /** Each listing page other than the landing page is written as its page name with ".html",
      the landing page as "index.html"; so no two pages write the same file. */
  lemma ListingOutputs()
    ensures forall i :: 0 <= i < |ListingPages| && ListingPages[i].page != "landing" ==>
      ListingPages[i].output == ListingPages[i].page + ".html"
    ensures forall i, j :: 0 <= i < j < |ListingPages| ==> ListingPages[i].output != ListingPages[j].output
  {
  }

  // ---------------------------------------------------------------------------------------
  // Detail pages

  datatype ContentType = Articles | Advice | Interviews | PersonalityTests

  /** A content type's name, which is also its directory. */
  function ContentName(ct: ContentType): string {
    match ct
    case Articles => "articles"
    case Advice => "advice"
    case Interviews => "interviews"
    case PersonalityTests => "personality-tests"
  }

  /** The fields of an article the page plan reads; `authorName` is the untyped `author_name`. */
  datatype Article = Article(id: Option<int>, slug: string, authorId: Option<int>, authorName: Option<string>)

  /** An author as `getAuthor` returns it. */
  datatype Author = Author(name: string, bio: Option<string>, imageUrl: Option<string>)

  /** The author record handed to the template. */
  datatype AuthorRecord = AuthorRecord(name: string, bio: string, imageUrl: string)

  /** A `PersonalityTestQuestions` record; `questions` are the values of `questions_json` in
      enumeration order, `None` when the field is missing. */
  datatype QuestionSet = QuestionSet(articleId: int, questions: Option<seq<string>>)

  datatype DetailPage = DetailPage(filePath: string, template: string, author: AuthorRecord, questions: seq<string>)

  const PersonalityTestTemplate := "./views/personalitytest-content-page.ejs"
  const ArticleTemplate := "./views/article-content-page.ejs"
  const UnknownAuthor := "Unknown Author"

  /** The template a content type's pages use. */
  function TemplateFor(ct: ContentType): (template: string)
    ensures template == PersonalityTestTemplate <==> ct == PersonalityTests
    ensures template != PersonalityTestTemplate ==> template == ArticleTemplate
  {
    if ContentName(ct) == "personality-tests" then PersonalityTestTemplate else ArticleTemplate
  }

  /** `article.author_id` is truthy: present and not 0. */
  predicate HasAuthorId(article: Article) {
    article.authorId.Some? && article.authorId.value != 0
  }

  /** The record used unless a lookup succeeds. */
  function FallbackAuthor(article: Article): AuthorRecord {
    AuthorRecord(if Truthy(article.authorName) then article.authorName.value else UnknownAuthor, "", "")
  }

  /** The author record of a page. `lookup` is the outcome of `getAuthor`: an error, or the
      envelope's data, which may be missing (then reading its name throws, and the fallback is
      kept as well). */
  function AuthorFor(article: Article, lookup: int -> Result<Option<Author>>): (a: AuthorRecord)
    ensures !HasAuthorId(article) ==>
      a == AuthorRecord(if Truthy(article.authorName) then article.authorName.value else UnknownAuthor, "", "")
    ensures HasAuthorId(article) && !(lookup(article.authorId.value).Ok? && lookup(article.authorId.value).value.Some?)
      ==> a == AuthorRecord(if Truthy(article.authorName) then article.authorName.value else UnknownAuthor, "", "")
    ensures HasAuthorId(article) && lookup(article.authorId.value).Ok? && lookup(article.authorId.value).value.Some?
      ==> var found := lookup(article.authorId.value).value.value;
          && a.name == found.name
          && a.bio == (if Truthy(found.bio) then found.bio.value else "")
          && a.imageUrl == (if Truthy(found.imageUrl) then found.imageUrl.value else "")
  {
    if HasAuthorId(article) then
      match lookup(article.authorId.value)
      case Ok(Some(found)) =>
        AuthorRecord(found.name, found.bio.GetOr(""), found.imageUrl.GetOr(""))
      case _ => FallbackAuthor(article)
    else FallbackAuthor(article)
  }

  /** The `let authorData` of a page: the fallback record, overwritten after a successful
      lookup. */
  method ResolveAuthor(article: Article, lookup: int -> Result<Option<Author>>) returns (authorData: AuthorRecord)
    ensures authorData == AuthorFor(article, lookup)
  {
    authorData := AuthorRecord(if Truthy(article.authorName) then article.authorName.value else UnknownAuthor, "", "");
    if article.authorId.Some? && article.authorId.value != 0 {
      var outcome := lookup(article.authorId.value);
      if outcome.Ok? && outcome.value.Some? {
        var fullAuthor := outcome.value.value;
        authorData := AuthorRecord(fullAuthor.name,
                                   if Truthy(fullAuthor.bio) then fullAuthor.bio.value else "",
                                   if Truthy(fullAuthor.imageUrl) then fullAuthor.imageUrl.value else "");
      }
    }
  }

  /** The first question set at or after `from` whose article id is `id`. */
  function FirstQuestionSet(sets: seq<QuestionSet>, id: int, from: nat): (r: Option<nat>)
    ensures r.Some? ==> from <= r.value < |sets| && sets[r.value].articleId == id
    ensures r.Some? ==> forall j :: from <= j < r.value ==> sets[j].articleId != id
    ensures r.None? ==> forall j :: from <= j < |sets| ==> sets[j].articleId != id
    decreases |sets| - from
  {
    if from >= |sets| then None
    else if sets[from].articleId == id then Some(from)
    else FirstQuestionSet(sets, id, from + 1)
  }

  /** The questions of a page: those of the first set for the article, or none. An article
      without an id matches no set. */
  function QuestionsFor(sets: seq<QuestionSet>, articleId: Option<int>): (questions: seq<string>)
    ensures articleId.None? ==> questions == []
    ensures articleId.Some? && (forall j :: 0 <= j < |sets| ==> sets[j].articleId != articleId.value) ==> questions == []
  {
    if articleId.None? then []
    else match FirstQuestionSet(sets, articleId.value, 0)
      case Some(i) => sets[i].questions.GetOr([])
      case None => []
  }

  /** The questions come from the first matching set, whatever sets follow it. */
  lemma QuestionsFromFirstMatch(before: seq<QuestionSet>, first: QuestionSet, after: seq<QuestionSet>)
    requires forall j :: 0 <= j < |before| ==> before[j].articleId != first.articleId
    ensures QuestionsFor(before + [first] + after, Some(first.articleId)) == first.questions.GetOr([])
  {
    var sets := before + [first] + after;
    assert sets[|before|] == first;
    assert forall j :: 0 <= j < |before| ==> sets[j] == before[j];
    assert FirstQuestionSet(sets, first.articleId, 0) == Some(|before|);
  }

  /** The page written for one article of one content type. */
  function DetailPageFor(outputPath: string, ct: ContentType, article: Article,
                         lookup: int -> Result<Option<Author>>, sets: seq<QuestionSet>): (page: DetailPage)
    ensures page.filePath == outputPath + "/" + ContentName(ct) + "/" + (article.slug + ".html")
    ensures StartsWith(page.filePath, outputPath + "/" + ContentName(ct) + "/")
    ensures page.template == TemplateFor(ct)
    ensures page.author == AuthorFor(article, lookup)
    ensures page.questions == QuestionsFor(sets, article.id)
  {
    var contentDir := outputPath + "/" + ContentName(ct);
    var fileName := article.slug + ".html";
    DetailPage(contentDir + "/" + fileName, TemplateFor(ct), AuthorFor(article, lookup), QuestionsFor(sets, article.id))
  }

  /** Two articles of a content type with different slugs are written to different files. */
  lemma DistinctSlugsDistinctFiles(outputPath: string, ct: ContentType, a1: Article, a2: Article,
                                   lookup: int -> Result<Option<Author>>, sets: seq<QuestionSet>)
    requires a1.slug != a2.slug
    ensures DetailPageFor(outputPath, ct, a1, lookup, sets).filePath != DetailPageFor(outputPath, ct, a2, lookup, sets).filePath
  {
    var dir := outputPath + "/" + ContentName(ct) + "/";
    var f1, f2 := DetailPageFor(outputPath, ct, a1, lookup, sets).filePath, DetailPageFor(outputPath, ct, a2, lookup, sets).filePath;
    assert f1 == dir + a1.slug + ".html" && f2 == dir + a2.slug + ".html";
    if |a1.slug| == |a2.slug| {
      assert f1[|dir|..|dir| + |a1.slug|] == a1.slug;
      assert f2[|dir|..|dir| + |a2.slug|] == a2.slug;
    }
  }

  /** The content types in the order the loop visits them, each with its fetched articles. */
  function ContentGroups(articles: seq<Article>, advice: seq<Article>, interviews: seq<Article>,
                         personalityTests: seq<Article>): seq<(ContentType, seq<Article>)> {
    [(Articles, articles), (Advice, advice), (Interviews, interviews), (PersonalityTests, personalityTests)]
  }

  /** The pages of one content type, one per article, in order. */
  function GroupPages(outputPath: string, ct: ContentType, arts: seq<Article>,
                      lookup: int -> Result<Option<Author>>, sets: seq<QuestionSet>): (pages: seq<DetailPage>)
    ensures |pages| == |arts|
    ensures forall j :: 0 <= j < |arts| ==> pages[j] == DetailPageFor(outputPath, ct, arts[j], lookup, sets)
  {
    if arts == [] then []
    else GroupPages(outputPath, ct, arts[..|arts| - 1], lookup, sets) + [DetailPageFor(outputPath, ct, arts[|arts| - 1], lookup, sets)]
  }

  /** The four content types in source order: every article page, then every advice page,
      then every interview page, then every personality test page. */
  lemma DetailPlanInSourceOrder(outputPath: string, articles: seq<Article>, advice: seq<Article>,
                                interviews: seq<Article>, personalityTests: seq<Article>,
                                lookup: int -> Result<Option<Author>>, sets: seq<QuestionSet>)
    ensures DetailPlan(outputPath, ContentGroups(articles, advice, interviews, personalityTests), lookup, sets)
         == GroupPages(outputPath, Articles, articles, lookup, sets)
          + GroupPages(outputPath, Advice, advice, lookup, sets)
          + GroupPages(outputPath, Interviews, interviews, lookup, sets)
          + GroupPages(outputPath, PersonalityTests, personalityTests, lookup, sets)
  {
    var p1 := [(Articles, articles)];
    var p2 := p1 + [(Advice, advice)];
    var p3 := p2 + [(Interviews, interviews)];
    var p4 := p3 + [(PersonalityTests, personalityTests)];
    assert ContentGroups(articles, advice, interviews, personalityTests) == p4;
    var g1 := GroupPages(outputPath, Articles, articles, lookup, sets);
    var g2 := GroupPages(outputPath, Advice, advice, lookup, sets);
    var g3 := GroupPages(outputPath, Interviews, interviews, lookup, sets);
    var g4 := GroupPages(outputPath, PersonalityTests, personalityTests, lookup, sets);
    DetailPlanSnoc(outputPath, [], (Articles, articles), lookup, sets);
    assert [] + [(Articles, articles)] == p1;
    EmptyAppend(g1);
    assert DetailPlan(outputPath, p1, lookup, sets) == g1;
    DetailPlanSnoc(outputPath, p1, (Advice, advice), lookup, sets);
    assert DetailPlan(outputPath, p2, lookup, sets) == g1 + g2;
    DetailPlanSnoc(outputPath, p2, (Interviews, interviews), lookup, sets);
    assert DetailPlan(outputPath, p3, lookup, sets) == g1 + g2 + g3;
    DetailPlanSnoc(outputPath, p3, (PersonalityTests, personalityTests), lookup, sets);
    assert DetailPlan(outputPath, p4, lookup, sets) == g1 + g2 + g3 + g4;
  }

  /** Adding a group at the end adds its pages at the end. */
  lemma DetailPlanSnoc(outputPath: string, groups: seq<(ContentType, seq<Article>)>, g: (ContentType, seq<Article>),
                       lookup: int -> Result<Option<Author>>, sets: seq<QuestionSet>)
    ensures DetailPlan(outputPath, groups + [g], lookup, sets)
         == DetailPlan(outputPath, groups, lookup, sets) + GroupPages(outputPath, g.0, g.1, lookup, sets)
  {
    assert (groups + [g])[..|groups|] == groups;
  }

  /** The pages of every group, group after group. */
  function DetailPlan(outputPath: string, groups: seq<(ContentType, seq<Article>)>,
                      lookup: int -> Result<Option<Author>>, sets: seq<QuestionSet>): seq<DetailPage>
  {
    if groups == [] then []
    else
      var last := groups[|groups| - 1];
      DetailPlan(outputPath, groups[..|groups| - 1], lookup, sets) + GroupPages(outputPath, last.0, last.1, lookup, sets)
  }

  /** The number of articles over all groups. */
  function ArticleCount(groups: seq<(ContentType, seq<Article>)>): nat {
    if groups == [] then 0 else ArticleCount(groups[..|groups| - 1]) + |groups[|groups| - 1].1|
  }

  /** One page per article. */
  lemma {:induction false} DetailPlanCount(outputPath: string, groups: seq<(ContentType, seq<Article>)>,
                                           lookup: int -> Result<Option<Author>>, sets: seq<QuestionSet>)
    ensures |DetailPlan(outputPath, groups, lookup, sets)| == ArticleCount(groups)
  {
    if groups != [] {
      DetailPlanCount(outputPath, groups[..|groups| - 1], lookup, sets);
    }
  }

  /** The nested loop over content types and their articles, collecting the page each
      iteration renders and writes. */
  method PlanDetailPages(outputPath: string, groups: seq<(ContentType, seq<Article>)>,
                         lookup: int -> Result<Option<Author>>, sets: seq<QuestionSet>)
    returns (pages: seq<DetailPage>)
    ensures pages == DetailPlan(outputPath, groups, lookup, sets)
  {
    pages := [];
    for g := 0 to |groups|
      invariant pages == DetailPlan(outputPath, groups[..g], lookup, sets)
    {
      var (ct, arts) := groups[g];
      var groupPages := PlanGroupPages(outputPath, ct, arts, lookup, sets);
      assert groups[..g + 1][..g] == groups[..g];
      pages := pages + groupPages;
    }
    assert groups[..|groups|] == groups;
  }

  /** The inner loop: the pages of one content type's articles. */
  method PlanGroupPages(outputPath: string, ct: ContentType, arts: seq<Article>,
                        lookup: int -> Result<Option<Author>>, sets: seq<QuestionSet>)
    returns (pages: seq<DetailPage>)
    ensures pages == GroupPages(outputPath, ct, arts, lookup, sets)
  {
    var contentDir := outputPath + "/" + ContentName(ct);
    pages := [];
    for j := 0 to |arts|
      invariant pages == GroupPages(outputPath, ct, arts[..j], lookup, sets)
    {
      var article := arts[j];
      var fileName := article.slug + ".html";
      var filePath := contentDir + "/" + fileName;
      var authorData := ResolveAuthor(article, lookup);
      var questions := QuestionsFor(sets, article.id);
      var templateFile := if ContentName(ct) == "personality-tests" then PersonalityTestTemplate else ArticleTemplate;
      var page := DetailPage(filePath, templateFile, authorData, questions);
      assert page == DetailPageFor(outputPath, ct, article, lookup, sets);
      assert GroupPages(outputPath, ct, arts[..j + 1], lookup, sets)
          == GroupPages(outputPath, ct, arts[..j], lookup, sets) + [page] by {
        assert arts[..j + 1][..j] == arts[..j] && arts[..j + 1][j] == article;
      }
      pages := pages + [page];
    }
    assert arts[..|arts|] == arts;
  }
}
