/**
 * Static resources served from flash (`loadFromSpiffs`, `handleWebRequests`
 * in src/main.cpp): how a request path is rewritten, which content type it
 * is served with, and the diagnostic text of a 404 reply.
 */
module Resources {
  import opened Definitions
  import opened Decimal
  import opened Http

  /** `String::endsWith`. */
  predicate EndsWith(s: string, suffix: string)
  {
    |suffix| <= |s| && s[|s| - |suffix|..] == suffix
  }

  /** `String::lastIndexOf(c)`: the last position holding `c`, or -1. */
  function LastIndexOf(s: string, c: char): (r: int)
    ensures -1 <= r < |s|
    ensures r >= 0 ==> s[r] == c
    ensures forall j :: r < j < |s| ==> s[j] != c
    decreases |s|
  {
    if s == [] then -1
    else if s[|s| - 1] == c then |s| - 1
    else LastIndexOf(s[..|s| - 1], c)
  }

  /** The else-if chain of `loadFromSpiffs` past its first two branches. */
  function ContentType(path: string): string
  {
    if EndsWith(path, ".html") then "text/html"
    else if EndsWith(path, ".htm") then "text/html"
    else if EndsWith(path, ".css") then "text/css"
    else if EndsWith(path, ".js") then "application/javascript"
    else if EndsWith(path, ".png") then "image/png"
    else if EndsWith(path, ".gif") then "image/gif"
    else if EndsWith(path, ".jpg") then "image/jpeg"
    else if EndsWith(path, ".ico") then "image/x-icon"
    else if EndsWith(path, ".xml") then "text/xml"
    else if EndsWith(path, ".pdf") then "application/pdf"
    else if EndsWith(path, ".zip") then "application/zip"
    else if EndsWith(path, ".json") then "application/json"
    else "text/plain"
  }

  /** The same choice as a table of (suffix, type), checked in order. */
  const MIME_TABLE: seq<(string, string)> := [
    (".html", "text/html"), (".htm", "text/html"), (".css", "text/css"),
    (".js", "application/javascript"), (".png", "image/png"), (".gif", "image/gif"),
    (".jpg", "image/jpeg"), (".ico", "image/x-icon"), (".xml", "text/xml"),
    (".pdf", "application/pdf"), (".zip", "application/zip"), (".json", "application/json")]

  /** The type of the first entry from position `i` on whose suffix ends `path`; "text/plain" if none. */
  function FirstMatch(table: seq<(string, string)>, path: string, i: nat): string
    decreases |table| - i
  {
    if i >= |table| then "text/plain"
    else if EndsWith(path, table[i].0) then table[i].1
    else FirstMatch(table, path, i + 1)
  }

  /** Unfolding the lookup over a table of twelve entries. */
  lemma {:induction false} FirstMatchOfTwelve(t: seq<(string, string)>, path: string)
    requires |t| == 12
    ensures FirstMatch(t, path, 0) ==
      if EndsWith(path, t[0].0) then t[0].1
      else if EndsWith(path, t[1].0) then t[1].1
      else if EndsWith(path, t[2].0) then t[2].1
      else if EndsWith(path, t[3].0) then t[3].1
      else if EndsWith(path, t[4].0) then t[4].1
      else if EndsWith(path, t[5].0) then t[5].1
      else if EndsWith(path, t[6].0) then t[6].1
      else if EndsWith(path, t[7].0) then t[7].1
      else if EndsWith(path, t[8].0) then t[8].1
      else if EndsWith(path, t[9].0) then t[9].1
      else if EndsWith(path, t[10].0) then t[10].1
      else if EndsWith(path, t[11].0) then t[11].1
      else "text/plain"
  {
    assert FirstMatch(t, path, 12) == "text/plain";
    assert FirstMatch(t, path, 11) == if EndsWith(path, t[11].0) then t[11].1 else FirstMatch(t, path, 12);
    assert FirstMatch(t, path, 10) == if EndsWith(path, t[10].0) then t[10].1 else FirstMatch(t, path, 11);
    assert FirstMatch(t, path, 9) == if EndsWith(path, t[9].0) then t[9].1 else FirstMatch(t, path, 10);
    assert FirstMatch(t, path, 8) == if EndsWith(path, t[8].0) then t[8].1 else FirstMatch(t, path, 9);
    assert FirstMatch(t, path, 7) == if EndsWith(path, t[7].0) then t[7].1 else FirstMatch(t, path, 8);
    assert FirstMatch(t, path, 6) == if EndsWith(path, t[6].0) then t[6].1 else FirstMatch(t, path, 7);
    assert FirstMatch(t, path, 5) == if EndsWith(path, t[5].0) then t[5].1 else FirstMatch(t, path, 6);
    assert FirstMatch(t, path, 4) == if EndsWith(path, t[4].0) then t[4].1 else FirstMatch(t, path, 5);
    assert FirstMatch(t, path, 3) == if EndsWith(path, t[3].0) then t[3].1 else FirstMatch(t, path, 4);
    assert FirstMatch(t, path, 2) == if EndsWith(path, t[2].0) then t[2].1 else FirstMatch(t, path, 3);
    assert FirstMatch(t, path, 1) == if EndsWith(path, t[1].0) then t[1].1 else FirstMatch(t, path, 2);
  }

  /** The chain is the table lookup: the first listed suffix the path ends with decides. */
  lemma ContentTypeIsTableLookup(path: string)
    ensures ContentType(path) == FirstMatch(MIME_TABLE, path, 0)
  {
    FirstMatchOfTwelve(MIME_TABLE, path);
  }

  /** A path ending in ".src" has its last '.' four characters from the end. */
  lemma LastDotOfSource(path: string)
    ensures EndsWith(path, ".src") ==> LastIndexOf(path, '.') == |path| - 4
  {
    if EndsWith(path, ".src") {
      var n := |path|;
      assert path[n - 4..] == ".src";
      assert path[n - 4] == '.' && path[n - 3] == 's' && path[n - 2] == 'r' && path[n - 1] == 'c';
    }
  }

  /**
   * The path actually opened and the content type: a trailing "/" gets
   * "index.html" appended, a ".src" suffix is cut at the last '.', both
   * keeping "text/plain"; otherwise the chain decides. A "download" argument
   * overrides the type.
   */
  function ResolvePath(path: string, download: bool): (r: (string, string))
    ensures download ==> r.1 == "application/octet-stream"
    ensures !download && (EndsWith(path, "/") || EndsWith(path, ".src")) ==> r.1 == "text/plain"
    ensures EndsWith(path, "/") ==> r.0 == path + "index.html"
    ensures !EndsWith(path, "/") && EndsWith(path, ".src") ==> r.0 == path[..|path| - 4]
    ensures !EndsWith(path, "/") && !EndsWith(path, ".src") ==>
      r.0 == path && (!download ==> r.1 == ContentType(path))
  {
    LastDotOfSource(path);
    var (path', dataType) :=
      if EndsWith(path, "/") then (path + "index.html", "text/plain")
      else if EndsWith(path, ".src") then (path[..LastIndexOf(path, '.')], "text/plain")
      else (path, ContentType(path));
    (path', if download then "application/octet-stream" else dataType)
  }

  /**
   * `loadFromSpiffs` over the set of files in flash: None when the resolved
   * path is not a file (the caller then answers 404), otherwise the file
   * streamed with 200 and the chosen type.
   */
  function LoadFromSpiffs(path: string, download: bool, files: set<string>): (r: Option<Response>)
    ensures r.Some? <==> ResolvePath(path, download).0 in files
    ensures r.Some? ==> r.value == Reply(OK, ResolvePath(path, download).1, FileBody(ResolvePath(path, download).0))
  {
    var (path', dataType) := ResolvePath(path, download);
    if path' in files then Some(Reply(OK, dataType, FileBody(path'))) else None
  }

  /** A ".src" request serves the file without that suffix as plain text, its source view. */
  lemma SourceView(name: string, files: set<string>)
    requires !EndsWith(name, "/") && name in files
    ensures LoadFromSpiffs(name + ".src", false, files) == Some(Reply(OK, "text/plain", FileBody(name)))
  {
    var p := name + ".src";
    assert p[|p| - 4..] == ".src";
    assert p[..|p| - 4] == name;
    assert !EndsWith(p, "/") by {
      assert p[|p| - 1] == 'c';
    }
  }

  // ---------------------------------------------------------------------
  // The 404 diagnostic.

  /** The label `handleWebRequests` prints for a method: anything but GET reads "POST". */
  function MethodLabel(m: Method): (s: string)
    ensures s == "GET" <==> m == Get
  {
    if m == Get then "GET" else "POST"
  }

  function ArgLine(arg: (string, string)): string
  {
    " NAME:" + arg.0 + "\n VALUE:" + arg.1 + "\n"
  }

  function ArgLines(args: seq<(string, string)>): string
  {
    if args == [] then "" else ArgLines(args[..|args| - 1]) + ArgLine(args[|args| - 1])
  }

  lemma ArgLinesSnoc(args: seq<(string, string)>, i: nat)
    requires i < |args|
    ensures ArgLines(args[..i + 1]) == ArgLines(args[..i]) + ArgLine(args[i])
  {
    assert args[..i + 1][..i] == args[..i];
  }

  /** The text of the 404 reply: the request line summary, then one line pair per argument. */
  function NotFoundText(req: Request): string
  {
    NotFoundHead(req) + ArgLines(req.args)
  }

  function NotFoundHead(req: Request): string
  {
    "File Not Detected\n\n" + "URI: " + req.uri + "\nMethod: " + MethodLabel(req.verb)
      + "\nArguments: " + FromNat(|req.args|) + "\n"
  }

  /** The argument lines are in request order: lines of a prefix, then the lines of the rest. */
  lemma {:induction false} ArgLinesSplit(args: seq<(string, string)>, k: nat)
    requires k <= |args|
    ensures ArgLines(args) == ArgLines(args[..k]) + ArgLines(args[k..])
    decreases |args|
  {
    if k < |args| {
      var n := |args|;
      ArgLinesSplit(args[..n - 1], k);
      assert args[..n - 1][..k] == args[..k];
      assert args[k..][..|args[k..]| - 1] == args[..n - 1][k..];
      assert args[k..][|args[k..]| - 1] == args[n - 1];
    } else {
      assert args[..k] == args;
    }
  }

  /** Any method other than GET yields the same 404 text as POST. */
  lemma NonGetReportedAsPost(req: Request)
    requires req.verb != Get
    ensures NotFoundText(req) == NotFoundText(req.(verb := Post))
  {
  }

  // The argument loop as written counts with a uint8_t.

  /** `i++` on a uint8_t. */
  function Inc8(i: byte): (r: byte)
    ensures i < 0xFF ==> r == i + 1
    ensures i == 0xFF ==> r == 0
  {
    (i + 1) % 0x100
  }

  /** The uint8_t index of the argument loop as written, after `k` iterations. */
  function ArgIndexAsWritten(k: nat): byte
  {
    if k == 0 then 0 else Inc8(ArgIndexAsWritten(k - 1))
  }

  /** The index counts the first 256 iterations, and after 256 of them it is back at argument 0. */
  lemma {:induction false} ArgIndexCounts(k: nat)
    requires k <= 0x100
    ensures ArgIndexAsWritten(k) == if k < 0x100 then k else 0
  {
    if k > 0 {
      ArgIndexCounts(k - 1);
    }
  }

  /**
   * With 256 or more arguments the loop as written never ends: the guard
   * `i < webserver.args()` holds after any number of iterations.
   */
  lemma ArgLoopNeverEnds(argCount: nat, k: nat)
    requires argCount >= 0x100
    ensures ArgIndexAsWritten(k) < argCount
  {
  }

  /**
   * `handleWebRequests`: serve the file if there is one; otherwise build
   * the diagnostic text, one "NAME/VALUE" pair per argument, and answer 404.
   */
  method HandleWebRequests(req: Request, files: set<string>) returns (resp: Response, found: bool)
    ensures var served := LoadFromSpiffs(req.uri, HasArg(req, "download"), files);
      && found == served.Some?
      && resp == if found then served.value else Reply(NOT_FOUND, "text/plain", Text(NotFoundText(req)))
  {
    var served := LoadFromSpiffs(req.uri, HasArg(req, "download"), files);
    if served.Some? {
      return served.value, true;
    }
    var message := NotFoundMessage(req);
    return Reply(NOT_FOUND, "text/plain", Text(message)), false;
  }

  lemma AppendAssoc(a: string, b: string, c: string)
    ensures a + (b + c) == a + b + c
  {
  }

  /**
   * The 404 text, built as `handleWebRequests` builds it, with the argument
   * loop counting far enough to reach every argument.
   */
  method NotFoundMessage(req: Request) returns (message: string)
    ensures message == NotFoundText(req)
  {
    message := "File Not Detected\n\n";
    message := message + "URI: ";
    message := message + req.uri;
    message := message + "\nMethod: ";
    message := message + MethodLabel(req.verb);
    message := message + "\nArguments: ";
    message := message + FromNat(|req.args|);
    message := message + "\n";
    ghost var head := message;
    assert head == NotFoundHead(req);
    var i := 0;
    while i < |req.args|
      invariant 0 <= i <= |req.args|
      invariant message == head + ArgLines(req.args[..i])
    {
      var line := " NAME:" + req.args[i].0 + "\n VALUE:" + req.args[i].1 + "\n";
      assert line == ArgLine(req.args[i]);
      ArgLinesSnoc(req.args, i);
      AppendAssoc(head, ArgLines(req.args[..i]), line);
      message := message + line;
      i := i + 1;
    }
    assert req.args[..i] == req.args;
  }
}
