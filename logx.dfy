/** Model of internal/logx/logx.go and internal/logx/multihandler.go: the
    logger's option handling (level names, the Quiet override, the file
    sink guard), the cleanup closure, and the handler that fans each record
    out to several handlers.

    slog itself is not modelled: a handler of the logger being built is
    described by a `HandlerSpec` (where it writes, in which format, at which
    level), and the handlers a multiHandler holds are values of an abstract
    type whose behaviour (enabled or not, the error of handling a record,
    the handler derived by WithAttrs or WithGroup) is passed in as a
    function. The file system calls of New are parameters: the error that
    creating the log directory or opening the log file would return. */
module Logx {
  import opened Wrappers

  /** slog's level values. */
  const SlogDebug: int := -4
  const SlogInfo: int := 0
  const SlogWarn: int := 4
  const SlogError: int := 8

  const InvalidPrefix := "logx: invalid "

  /** invalid: the package's error text for a bad option. */
  function Invalid(kind: string, got: string): (msg: string)
    ensures |msg| == |kind| + |got| + 16
    ensures msg[..14] == InvalidPrefix && msg[14..14 + |kind|] == kind
    ensures msg[14 + |kind|..16 + |kind|] == ": " && msg[|msg| - |got|..] == got
  {
    InvalidPrefix + kind + ": " + got
  }

  /** The message names what was given: two values rejected as the same
      kind of option give the same message only when they are equal. */
  lemma InvalidNamesValue(kind: string, got1: string, got2: string)
    requires Invalid(kind, got1) == Invalid(kind, got2)
    ensures got1 == got2
  {
    var msg := Invalid(kind, got1);
    assert got1 == msg[|msg| - |got1|..];
  }

  /** toSlogLevel: the level a name stands for ("" meaning info), or an
      invalid-level error naming what was given. */
  function ToSlogLevel(lvl: string): (r: Result<int, string>)
    ensures r.Success? <==> lvl in {"debug", "info", "", "warn", "error"}
    ensures r.Failure? ==> r.error == Invalid("level", lvl)
    ensures r.Success? ==> r.value in {SlogDebug, SlogInfo, SlogWarn, SlogError}
    ensures lvl == "debug" ==> r == Success(SlogDebug)
    ensures lvl == "info" || lvl == "" ==> r == Success(SlogInfo)
    ensures lvl == "warn" ==> r == Success(SlogWarn)
    ensures lvl == "error" ==> r == Success(SlogError)
  {
    if lvl == "debug" then Success(SlogDebug)
    else if lvl == "info" || lvl == "" then Success(SlogInfo)
    else if lvl == "warn" then Success(SlogWarn)
    else if lvl == "error" then Success(SlogError)
    else Failure(Invalid("level", lvl))
  }

  /** The package's name of each slog level it knows. */
  function LevelName(level: int): string {
    if level == SlogDebug then "debug"
    else if level == SlogInfo then "info"
    else if level == SlogWarn then "warn"
    else "error"
  }

  /** Every slog level the package knows is reached from its own name, and
      the names of different levels differ. */
  lemma LevelNamesRoundTrip(level: int)
    requires level in {SlogDebug, SlogInfo, SlogWarn, SlogError}
    ensures ToSlogLevel(LevelName(level)) == Success(level)
  {
  }

  /** Each name that parses is the name of the level it parses to, except
      the empty name, which is info. */
  lemma ParsedNamesRoundTrip(lvl: string)
    requires ToSlogLevel(lvl).Success? && lvl != ""
    ensures LevelName(ToSlogLevel(lvl).value) == lvl
  {
  }

  /** options.go's Options. */
  datatype Options = Options(
    consoleEnabled: bool, consoleFormat: string, consoleLevel: string,
    fileEnabled: bool, filePath: string, fileFormat: string, fileLevel: string,
    source: bool, runId: string, component: string, quiet: bool)

  datatype Sink = Stderr | LogFile(path: string)

  /** One slog handler New builds: its sink, whether it writes JSON (any
      other format is text), its Leveler (None for the nil Leveler an
      unparsable level name leaves), and whether it adds the source position. */
  datatype HandlerSpec = HandlerSpec(sink: Sink, json: bool, level: Option<int>, addSource: bool)

  /** What New returns on success: the handlers behind the logger, in
      order, the closers the cleanup function will call, and the two
      attributes every record carries. */
  datatype Logger = Logger(handlers: seq<HandlerSpec>, closers: seq<Sink>, runId: string, component: string)

  /** The Leveler a level name gives when its parse error is dropped. */
  function LevelOrNil(lvl: string): Option<int> {
    match ToSlogLevel(lvl)
    case Success(v) => Some(v)
    case Failure(_) => None
  }

  /** New: a console handler when the console is enabled (at the error
      level whenever Quiet is set); a file handler and its closer when the
      file sink is enabled, which first requires a path and a successful
      directory creation and open. Level parse errors are dropped. */
  method New(opts: Options, mkdirErr: Option<string>, openErr: Option<string>) returns (r: Result<Logger, string>)
    ensures opts.fileEnabled && opts.filePath == "" ==> r == Failure(Invalid("file", "missing path"))
    ensures opts.fileEnabled && opts.filePath != "" && mkdirErr.Some? ==> r == Failure(mkdirErr.value)
    ensures opts.fileEnabled && opts.filePath != "" && mkdirErr.None? && openErr.Some? ==> r == Failure(openErr.value)
    ensures r.Success? <==> !opts.fileEnabled || (opts.filePath != "" && mkdirErr.None? && openErr.None?)
    ensures r.Success? ==>
      && |r.value.handlers| == (if opts.consoleEnabled then 1 else 0) + (if opts.fileEnabled then 1 else 0)
      && r.value.closers == (if opts.fileEnabled then [LogFile(opts.filePath)] else [])
      && r.value.runId == opts.runId && r.value.component == opts.component
      && (forall h :: h in r.value.handlers ==> h.addSource == opts.source)
    ensures r.Success? && opts.consoleEnabled ==>
      var h := r.value.handlers[0];
      && h.sink == Stderr && h.json == (opts.consoleFormat == "json")
      && h.level == (if opts.quiet then Some(SlogError) else LevelOrNil(opts.consoleLevel))
    ensures r.Success? && opts.fileEnabled ==>
      var h := r.value.handlers[|r.value.handlers| - 1];
      && h.sink == LogFile(opts.filePath) && h.json == (opts.fileFormat == "json")
      && h.level == LevelOrNil(opts.fileLevel)
  {
    var hs: seq<HandlerSpec> := [];
    var closers: seq<Sink> := [];

    if opts.consoleEnabled {
      var lvl := LevelOrNil(opts.consoleLevel);
      if opts.quiet {
        lvl := LevelOrNil("error");
      }
      hs := hs + [HandlerSpec(Stderr, opts.consoleFormat == "json", lvl, opts.source)];
    }

    if opts.fileEnabled {
      if opts.filePath == "" {
        return Failure(Invalid("file", "missing path"));
      }
      if mkdirErr.Some? {
        return Failure(mkdirErr.value);
      }
      if openErr.Some? {
        return Failure(openErr.value);
      }
      closers := closers + [LogFile(opts.filePath)];
      var lvl := LevelOrNil(opts.fileLevel);
      hs := hs + [HandlerSpec(LogFile(opts.filePath), opts.fileFormat == "json", lvl, opts.source)];
    }

    return Success(Logger(hs, closers, opts.runId, opts.component));
  }

  /** The first error in a run of outcomes, or None when there is none. */
  function FirstError(outcomes: seq<Option<string>>): Option<string>
    decreases |outcomes|
  {
    if outcomes == [] then None
    else if outcomes[0].Some? then outcomes[0]
    else FirstError(outcomes[1..])
  }

  /** The first error is None exactly when every outcome is None, and
      otherwise it is outcome `i`, with every earlier outcome None. */
  lemma {:induction false} FirstErrorIsFirst(outcomes: seq<Option<string>>) returns (i: nat)
    ensures FirstError(outcomes).None? <==> forall k :: 0 <= k < |outcomes| ==> outcomes[k].None?
    ensures FirstError(outcomes).Some? ==>
      && i < |outcomes| && outcomes[i] == FirstError(outcomes)
      && forall j :: 0 <= j < i ==> outcomes[j].None?
    decreases |outcomes|
  {
    if outcomes == [] || outcomes[0].Some? {
      i := 0;
    } else {
      var rest := outcomes[1..];
      var i' := FirstErrorIsFirst(rest);
      assert forall k :: 1 <= k < |outcomes| ==> outcomes[k] == rest[k - 1];
      i := i' + 1;
    }
  }

  /** The cleanup function New returns: call every closer in order, where
      `outcomes[i]` is what closer i returns, and report the first error.
      `called` lists the closers called, in order. */
  method Cleanup(outcomes: seq<Option<string>>) returns (err: Option<string>, called: seq<nat>)
    ensures err == FirstError(outcomes)
    ensures |called| == |outcomes| && forall i :: 0 <= i < |called| ==> called[i] == i
  {
    err := None;
    called := [];
    var i := 0;
    while i < |outcomes|
      invariant 0 <= i <= |outcomes|
      invariant |called| == i && forall k :: 0 <= k < i ==> called[k] == k
      invariant err == FirstError(outcomes[..i])
    {
      var e := outcomes[i];
      called := called + [i];
      FirstErrorExtend(outcomes[..i], e);
      assert outcomes[..i + 1] == outcomes[..i] + [e];
      if e.Some? && err.None? {
        err := e;
      }
      i := i + 1;
    }
    assert outcomes[..i] == outcomes;
  }

  /** One more outcome changes the first error only when there was none. */
  lemma {:induction false} FirstErrorExtend(outcomes: seq<Option<string>>, e: Option<string>)
    ensures FirstError(outcomes + [e]) == if FirstError(outcomes).Some? then FirstError(outcomes) else e
    decreases |outcomes|
  {
    if outcomes == [] {
      assert [] + [e] == [e];
      assert [e][1..] == [];
    } else {
      var all := outcomes + [e];
      assert all[0] == outcomes[0];
      assert all[1..] == outcomes[1..] + [e];
      FirstErrorExtend(outcomes[1..], e);
    }
  }

  /** multiHandler: a fixed list of handlers treated as one. */
  class MultiHandler<H(0)> {
    const handlers: seq<H>

    constructor (hs: seq<H>)
      ensures handlers == hs
    {
      handlers := hs;
    }

    /** Enabled: whether some handler is enabled at the level, asking them
        in order and stopping at the first that is. */
    method Enabled(isEnabled: H -> bool) returns (b: bool)
      ensures b <==> exists i :: 0 <= i < |handlers| && isEnabled(handlers[i])
    {
      var i := 0;
      while i < |handlers|
        invariant 0 <= i <= |handlers|
        invariant forall k :: 0 <= k < i ==> !isEnabled(handlers[k])
      {
        if isEnabled(handlers[i]) {
          return true;
        }
        i := i + 1;
      }
      return false;
    }

    /** Handle: give the record to every handler, even after one fails, and
        return the first error. `handle(h)` is what handler h returns for
        the record; `invoked` lists the handlers called, in order. */
    method Handle(handle: H -> Option<string>) returns (err: Option<string>, invoked: seq<nat>)
      ensures |invoked| == |handlers| && forall i :: 0 <= i < |invoked| ==> invoked[i] == i
      ensures err == FirstError(Outcomes(handlers, handle))
    {
      err := None;
      invoked := [];
      var i := 0;
      while i < |handlers|
        invariant 0 <= i <= |handlers|
        invariant |invoked| == i && forall k :: 0 <= k < i ==> invoked[k] == k
        invariant err == FirstError(Outcomes(handlers[..i], handle))
      {
        var e := handle(handlers[i]);
        invoked := invoked + [i];
        OutcomesExtend(handlers[..i], handlers[i], handle);
        assert handlers[..i + 1] == handlers[..i] + [handlers[i]];
        FirstErrorExtend(Outcomes(handlers[..i], handle), e);
        if e.Some? && err.None? {
          err := e;
        }
        i := i + 1;
      }
      assert handlers[..i] == handlers;
    }

    /** The loop WithAttrs and WithGroup share: a fresh handler list of the
        same length whose element i is derived from handler i. The receiver
        is not changed. */
    method Derive(derive: H -> H) returns (m: MultiHandler<H>)
      ensures fresh(m)
      ensures |m.handlers| == |handlers|
      ensures forall i :: 0 <= i < |handlers| ==> m.handlers[i] == derive(handlers[i])
    {
      var nhs := new H[|handlers|];
      for i := 0 to |handlers|
        invariant forall k :: 0 <= k < i ==> nhs[k] == derive(handlers[k])
      {
        nhs[i] := derive(handlers[i]);
      }
      m := new MultiHandler(nhs[..]);
    }

    /** WithAttrs: every handler with the attributes added. */
    method WithAttrs<A>(attrs: A, withAttrs: (H, A) -> H) returns (m: MultiHandler<H>)
      ensures fresh(m)
      ensures |m.handlers| == |handlers|
      ensures forall i :: 0 <= i < |handlers| ==> m.handlers[i] == withAttrs(handlers[i], attrs)
    {
      m := Derive(h => withAttrs(h, attrs));
    }

    /** WithGroup: every handler with the group opened. */
    method WithGroup(name: string, withGroup: (H, string) -> H) returns (m: MultiHandler<H>)
      ensures fresh(m)
      ensures |m.handlers| == |handlers|
      ensures forall i :: 0 <= i < |handlers| ==> m.handlers[i] == withGroup(handlers[i], name)
    {
      m := Derive(h => withGroup(h, name));
    }
  }

  /** What each handler returns for the record, in order. */
  function Outcomes<H>(hs: seq<H>, handle: H -> Option<string>): (r: seq<Option<string>>)
    ensures |r| == |hs| && forall i :: 0 <= i < |hs| ==> r[i] == handle(hs[i])
    decreases |hs|
  {
    if hs == [] then [] else Outcomes(hs[..|hs| - 1], handle) + [handle(hs[|hs| - 1])]
  }

  lemma OutcomesExtend<H>(hs: seq<H>, h: H, handle: H -> Option<string>)
    ensures Outcomes(hs + [h], handle) == Outcomes(hs, handle) + [handle(h)]
  {
    assert (hs + [h])[..|hs|] == hs;
  }

  /** With no handlers there is nothing to fail: Handle returns no error. */
  lemma NoHandlersNoError<H>(handle: H -> Option<string>)
    ensures FirstError(Outcomes([], handle)) == None
  {
  }
}
