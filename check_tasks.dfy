/**
 * The session-start task counter (check_tasks.py): find the project key of the current
 * repository, fetch the project's active tasks, map each to the cache record and print how
 * many there are. The HTTP exchange is an input: what came back, or how it failed.
 */
module CheckTasks {
  import opened Wrappers
  import opened Strings
  import opened Remote
  import opened Config

  /** A JSON field of a task as `dict.get` sees it: missing, null, or a string. */
  datatype Value = Absent | Null | Text(s: string)

  predicate Truthy(v: Value) { v.Text? && v.s != "" }

  /** `t.get(key)`: a missing key and a null both read as None. */
  function Get(v: Value): (r: Option<string>)
    ensures r.Some? <==> v.Text?
    ensures r.Some? ==> r.value == v.s
  {
    if v.Text? then Some(v.s) else None
  }

  /** One entry of the `todos` list of a synced-todos response (the fields the mapping reads). */
  datatype Todo = Todo(id: Value, summary: Value, title: Value, normalizedContent: Value,
                       originalTranscript: Value, createdAt: Value)

  /** The cache record built for one todo; `projectHint` is always None. */
  datatype CachedTask = CachedTask(id: Option<string>, summary: Option<string>, content: string,
                                   transcript: Option<string>, projectHint: Option<string>,
                                   gitRemote: string, createdAt: Option<string>)

  const NoSummary: string := "No summary"

  /**
   * The record of one todo: the summary if non-empty, else the title (None for a null
   * title, "No summary" only when the title key is missing); the content is the
   * normalised content if non-empty, else the summary if non-empty, else empty.
   */
  function MapTodo(t: Todo, gitRemote: string): (c: CachedTask)
    ensures Truthy(t.summary) ==> c.summary == Some(t.summary.s)
    ensures !Truthy(t.summary) ==> c.summary == (if t.title.Absent? then Some(NoSummary) else Get(t.title))
    ensures Truthy(t.normalizedContent) ==> c.content == t.normalizedContent.s
    ensures !Truthy(t.normalizedContent) && Truthy(t.summary) ==> c.content == t.summary.s
    ensures !Truthy(t.normalizedContent) && !Truthy(t.summary) ==> c.content == ""
    ensures c.id == Get(t.id) && c.transcript == Get(t.originalTranscript) && c.createdAt == Get(t.createdAt)
    ensures c.projectHint == None && c.gitRemote == gitRemote
  {
    var summary :=
      if Truthy(t.summary) then Some(t.summary.s)
      else if t.title.Absent? then Some(NoSummary)
      else Get(t.title);
    var content :=
      if Truthy(t.normalizedContent) then t.normalizedContent.s
      else if Truthy(t.summary) then t.summary.s
      else "";
    CachedTask(Get(t.id), summary, content, Get(t.originalTranscript), None, gitRemote, Get(t.createdAt))
  }

  /** The `todos` member of the decoded response body. */
  datatype TodosField = TodosAbsent | TodosNull | Todos(items: seq<Todo>)

  /** How the request ended. */
  datatype HttpOutcome =
    | Response(todos: TodosField)           // 2xx with a JSON object body
    | Undecodable(message: string)          // body that is not JSON (json raises a ValueError)
    | HttpError(code: int, reason: string)  // urllib.error.HTTPError
    | UrlError(reason: string)              // urllib.error.URLError (no connection, DNS, ...)
    | OtherFailure(message: string)         // any other exception (a timeout, ...)

  /** The two kinds of exception `main` tells apart. */
  datatype Failure = ValueError(message: string) | OtherException(message: string)

  const InvalidKeyMessage: string := "Invalid API key. Run '/push-todo connect' to configure."

  /** `str(e)` of an HTTPError. */
  function HttpErrorText(code: int, reason: string): string {
    "HTTP Error " + IntToString(code) + ": " + reason
  }

  /** `fetch_tasks`: the key first, then the response mapped in order, or the error classified. */
  function FetchTasks(apiKey: Result<string, string>, gitRemote: string, outcome: HttpOutcome): Result<seq<CachedTask>, Failure> {
    if apiKey.Err? then Err(ValueError(apiKey.error))
    else match outcome
      case Response(todos) =>
        (match todos
         case TodosAbsent => Ok([])
         case TodosNull => Err(OtherException("'NoneType' object is not iterable"))
         case Todos(items) => Ok(seq(|items|, i requires 0 <= i < |items| => MapTodo(items[i], gitRemote))))
      case Undecodable(msg) => Err(ValueError(msg))
      case HttpError(code, reason) =>
        if code == 401 then Err(ValueError(InvalidKeyMessage))
        else if code == 404 then Ok([])
        else Err(OtherException(HttpErrorText(code, reason)))
      case UrlError(reason) => Err(ValueError("Network error: " + reason))
      case OtherFailure(msg) => Err(OtherException(msg))
  }

  /** One record per todo, in the same order, each built from its own todo. */
  lemma FetchMapsInOrder(apiKey: Result<string, string>, gitRemote: string, items: seq<Todo>)
    requires apiKey.Ok?
    ensures var r := FetchTasks(apiKey, gitRemote, Response(Todos(items)));
      && r.Ok? && |r.value| == |items|
      && forall i :: 0 <= i < |items| ==> r.value[i] == MapTodo(items[i], gitRemote)
  {
  }

  /**
   * The error classification: a missing key and a 401 are configuration errors, a 404 is
   * an empty list, an unreachable server is a "Network error", other HTTP codes propagate.
   */
  lemma FetchErrors(apiKey: Result<string, string>, gitRemote: string, outcome: HttpOutcome)
    ensures apiKey.Err? ==> FetchTasks(apiKey, gitRemote, outcome) == Err(ValueError(apiKey.error))
    ensures apiKey.Ok? && outcome.HttpError? && outcome.code == 401 ==>
            FetchTasks(apiKey, gitRemote, outcome) == Err(ValueError(InvalidKeyMessage))
    ensures apiKey.Ok? && outcome.HttpError? && outcome.code == 404 ==> FetchTasks(apiKey, gitRemote, outcome) == Ok([])
    ensures apiKey.Ok? && outcome.HttpError? && outcome.code != 401 && outcome.code != 404 ==>
            FetchTasks(apiKey, gitRemote, outcome).Err? && FetchTasks(apiKey, gitRemote, outcome).error.OtherException?
    ensures apiKey.Ok? && outcome.UrlError? ==>
            FetchTasks(apiKey, gitRemote, outcome) == Err(ValueError("Network error: " + outcome.reason))
  {
  }

  /** What `main` prints and how it exits. */
  datatype Output = Output(stdout: string, stderr: string, exitCode: int)

  /**
   * `main`: no project key (not a repository, or a key that normalises to nothing) prints
   * 0; otherwise the number of tasks; a ValueError prints its message and other exceptions
   * "Error: " and theirs, to stderr, with exit code 1.
   */
  function Main(q: GitQuery, env: Option<string>, config: ConfigFile, outcome: HttpOutcome): Output {
    var remote := CheckTasksGitRemote(q);
    if remote.None? || remote.value == "" then Output("0\n", "", 0)
    else match FetchTasks(CheckTasksApiKey(env, config), remote.value, outcome)
      case Ok(tasks) => Output(IntToString(|tasks|) + "\n", "", 0)
      case Err(ValueError(msg)) => Output("", msg + "\n", 1)
      case Err(OtherException(msg)) => Output("", "Error: " + msg + "\n", 1)
  }

  /**
   * The output contract of the hook: exit 0 exactly when there is no project key or the
   * fetch succeeded, and then stdout is the count (0, or the number of fetched tasks) as
   * one line of decimal digits and stderr is empty; exit 1 otherwise, with nothing on
   * stdout and a message on stderr.
   */
  lemma MainOutput(q: GitQuery, env: Option<string>, config: ConfigFile, outcome: HttpOutcome)
    ensures var o := Main(q, env, config, outcome);
      var remote := CheckTasksGitRemote(q);
      var noProject := remote.None? || remote.value == "";
      var fetched := FetchTasks(CheckTasksApiKey(env, config), remote.GetOr(""), outcome);
      && (o.exitCode == 0 <==> noProject || fetched.Ok?)
      && (o.exitCode == 0 || o.exitCode == 1)
      && (o.exitCode == 0 ==>
            && o.stderr == "" && EndsWith(o.stdout, "\n")
            && ParseInt(o.stdout[..|o.stdout| - 1]) == Some(if noProject then 0 else |fetched.value|))
      && (o.exitCode == 1 ==> o.stdout == "" && o.stderr != "")
  {
    var o := Main(q, env, config, outcome);
    var remote := CheckTasksGitRemote(q);
    var fetched := FetchTasks(CheckTasksApiKey(env, config), remote.GetOr(""), outcome);
    if remote.None? || remote.value == "" {
      assert o.stdout == IntToString(0) + "\n";
      ParseIntToString(0);
    } else if fetched.Ok? {
      var n: int := |fetched.value|;
      assert o.stdout == IntToString(n) + "\n";
      assert o.stdout[..|o.stdout| - 1] == IntToString(n);
      ParseIntToString(n);
    }
  }

  /** Outside a repository the hook prints 0 whatever the key and the network would do. */
  lemma NoRemoteCountsZero(q: GitQuery, env: Option<string>, config: ConfigFile, outcome: HttpOutcome)
    requires CheckTasksGitRemote(q).None?
    ensures Main(q, env, config, outcome) == Output("0\n", "", 0)
  {
  }
}
