/**
 * The serverless entry point's helpers (server/api.ts): the allowed-origins
 * list, the CORS origin decision, log-line shaping and the run-once
 * initialisation.
 */
module Api {
  import opened Wrappers
  import opened Text
  import ChatUtils

  // -------------------------------------------------------- allowed origins

  /** `.map(s => s.trim()).filter(Boolean)`. */
  function TrimmedNonEmpty(pieces: seq<string>): (r: seq<string>)
    ensures forall k :: 0 <= k < |r| ==> r[k] != "" && IsTrimmed(r[k])
    ensures |r| <= |pieces|
  {
    if pieces == [] then []
    else
      TrimSpec(pieces[0]);
      (if Trim(pieces[0]) != "" then [Trim(pieces[0])] else []) + TrimmedNonEmpty(pieces[1..])
  }

  /** Filtering distributes over concatenation, so the input order is kept. */
  lemma {:induction false} TrimmedNonEmptyAppend(a: seq<string>, b: seq<string>)
    ensures TrimmedNonEmpty(a + b) == TrimmedNonEmpty(a) + TrimmedNonEmpty(b)
  {
    if a == [] {
      assert a + b == b;
    } else {
      assert (a + b)[0] == a[0];
      assert (a + b)[1..] == a[1..] + b;
      TrimmedNonEmptyAppend(a[1..], b);
    }
  }

  /** A piece that trims to something non-empty is kept. */
  lemma {:induction false} TrimmedNonEmptyKeeps(pieces: seq<string>, i: nat)
    requires i < |pieces| && Trim(pieces[i]) != ""
    ensures Trim(pieces[i]) in TrimmedNonEmpty(pieces)
  {
    if i > 0 {
      assert pieces[1..][i - 1] == pieces[i];
      TrimmedNonEmptyKeeps(pieces[1..], i - 1);
    }
  }

  /** Everything kept is the trim of some piece. */
  lemma {:induction false} TrimmedNonEmptySource(pieces: seq<string>, x: string) returns (i: nat)
    requires x in TrimmedNonEmpty(pieces)
    ensures i < |pieces| && Trim(pieces[i]) == x
  {
    if Trim(pieces[0]) == x {
      i := 0;
    } else {
      var j := TrimmedNonEmptySource(pieces[1..], x);
      i := j + 1;
    }
  }

  /** An origin is kept exactly when some piece trims to it. */
  lemma TrimmedNonEmptyMembers(pieces: seq<string>, x: string)
    ensures x in TrimmedNonEmpty(pieces) <==> x != "" && exists i :: 0 <= i < |pieces| && Trim(pieces[i]) == x
  {
    if x in TrimmedNonEmpty(pieces) {
      var i := TrimmedNonEmptySource(pieces, x);
      assert 0 <= i < |pieces| && Trim(pieces[i]) == x;
    }
    if x != "" && exists i :: 0 <= i < |pieces| && Trim(pieces[i]) == x {
      var i :| 0 <= i < |pieces| && Trim(pieces[i]) == x;
      TrimmedNonEmptyKeeps(pieces, i);
    }
  }

  /** `parseAllowedOrigins()` with `process.env.ALLOWED_ORIGINS` passed in. */
  function ParseAllowedOrigins(raw: Option<string>): (r: Option<seq<string>>)
    ensures raw.None? || raw == Some("") <==> r.None?
    ensures r.Some? ==> r.value == TrimmedNonEmpty(Split(raw.value, ","))
  {
    if raw.None? || raw.value == "" then None else Some(TrimmedNonEmpty(Split(raw.value, ",")))
  }

  /** Which CORS middleware `initApp` installs. */
  datatype CorsPolicy = Permissive | Restricted(allowed: seq<string>)

  function ChooseCors(raw: Option<string>): (p: CorsPolicy)
    ensures p.Restricted? ==> |p.allowed| > 0 && forall k :: 0 <= k < |p.allowed| ==> p.allowed[k] != "" && IsTrimmed(p.allowed[k])
    ensures p.Permissive? <==> ParseAllowedOrigins(raw).None? || ParseAllowedOrigins(raw).value == []
  {
    match ParseAllowedOrigins(raw)
    case Some(allowed) => if |allowed| > 0 then Restricted(allowed) else Permissive
    case None => Permissive
  }

  /** The `origin` callback: no origin (or an empty one) passes, a listed one passes, nothing else. */
  predicate OriginAllowed(allowed: seq<string>, origin: Option<string>) {
    origin.None? || origin.value == "" || origin.value in allowed
  }

  predicate Admits(p: CorsPolicy, origin: Option<string>) {
    match p
    case Permissive => true
    case Restricted(allowed) => OriginAllowed(allowed, origin)
  }

  /** A restricted policy admits a browser origin exactly when a listed piece trims to it. */
  lemma RestrictedAdmitsListed(raw: string, origin: string)
    requires ChooseCors(Some(raw)).Restricted? && origin != ""
    ensures Admits(ChooseCors(Some(raw)), Some(origin)) <==>
      exists i :: 0 <= i < |Split(raw, ",")| && Trim(Split(raw, ",")[i]) == origin
  {
    var pieces := Split(raw, ",");
    var allowed := TrimmedNonEmpty(pieces);
    assert Split(raw, ",") == pieces;
    assert ParseAllowedOrigins(Some(raw)) == Some(allowed);
    assert ChooseCors(Some(raw)) == Restricted(allowed);
    TrimmedNonEmptyMembers(pieces, origin);
    assert origin in allowed <==> exists i :: 0 <= i < |pieces| && Trim(pieces[i]) == origin;
    assert Admits(Restricted(allowed), Some(origin)) == (origin in allowed);
    assert Admits(ChooseCors(Some(raw)), Some(origin)) <==> exists i :: 0 <= i < |pieces| && Trim(pieces[i]) == origin;
  }

  /** Without the variable, every origin is admitted. */
  lemma UnsetIsPermissive(origin: Option<string>)
    ensures ChooseCors(None) == Permissive && ChooseCors(Some("")) == Permissive
    ensures Admits(ChooseCors(None), origin)
  {
  }

  /** A list of blanks parses to `[]`, which leaves CORS permissive. */
  lemma BlankListIsPermissive()
    ensures ParseAllowedOrigins(Some(", ,")) == Some([])
    ensures ChooseCors(Some(", ,")) == Permissive
  {
    var tail := Split("", ",");
    assert tail == [""];
    assert ","[..1] == "," && ","[1..] == "";
    assert Split(",", ",") == [""] + tail;
    assert " ,"[..1] != "," && " ,"[1..] == ",";
    assert Split(" ,", ",") == [[' '] + ""] + [""];
    assert ", ,"[..1] == "," && ", ,"[1..] == " ,";
    var pieces := Split(", ,", ",");
    assert pieces == [""] + Split(" ,", ",");
    assert [' '] + "" == " ";
    assert pieces == ["", " ", ""];
    assert Trim(" ") == "" by {
      assert IsJsWhitespace(" "[0]);
      assert LeadEnd(" ", 0) == 1;
    }
    assert TrimmedNonEmpty(pieces[2..]) == [] by {
      assert pieces[2..][1..] == [];
    }
    assert pieces[1..][1..] == pieces[2..];
    assert TrimmedNonEmpty(pieces[1..]) == [];
    assert TrimmedNonEmpty(pieces) == TrimmedNonEmpty(pieces[1..]);
  }

  // ------------------------------------------------------------ log lines

  const LogLimit := 120

  /** The suffix as it stands in the source: the UTF-8 bytes of "…" read as Windows-1252. */
  const MisencodedEllipsis := "\U{E2}\U{20AC}\U{A6}"

  /** The truncation step as the source writes it. */
  function TruncateLogLineAsWritten(line: string): (r: string)
    ensures |line| <= LogLimit ==> r == line
    ensures |line| > LogLimit ==> |r| == LogLimit + 2 && r[..LogLimit - 1] == line[..LogLimit - 1] && r[LogLimit - 1..] == MisencodedEllipsis
  {
    if |line| > LogLimit then line[..LogLimit - 1] + MisencodedEllipsis else line
  }

  /** Every truncated line comes out two characters over the limit. */
  lemma AsWrittenOverruns(line: string)
    requires |line| > LogLimit
    ensures |TruncateLogLineAsWritten(line)| == LogLimit + 2
  {
  }

  /** A concrete one: 121 characters become 122. */
  lemma AsWrittenOverrunsExample()
    ensures |TruncateLogLineAsWritten(seq(121, _ => 'x'))| == 122 > LogLimit
  {
    AsWrittenOverruns(seq(121, _ => 'x'));
  }

  /** The truncation with the one-character ellipsis "…" (U+2026). */
  function TruncateLogLine(line: string): (r: string)
    ensures |r| <= LogLimit
    ensures |line| <= LogLimit ==> r == line
    ensures |line| > LogLimit ==> |r| == LogLimit && r[..LogLimit - 1] == line[..LogLimit - 1] && r[LogLimit - 1] == '\U{2026}'
  {
    if |line| > LogLimit then line[..LogLimit - 1] + "\U{2026}" else line
  }

  /** Truncating a truncated line changes nothing. */
  lemma TruncateIdempotent(line: string)
    ensures TruncateLogLine(TruncateLogLine(line)) == TruncateLogLine(line)
  {
  }

  /**
   * The line logged when a response finishes: only for paths under `/api`,
   * with the captured JSON body (already stringified) when there was one.
   */
  function LogLine(verb: string, path: string, statusCode: nat, durationMs: nat, capturedJson: Option<string>): (r: Option<string>)
    ensures r.Some? <==> StartsWith(path, "/api")
    ensures r.Some? ==> |r.value| <= LogLimit
  {
    if !StartsWith(path, "/api") then None
    else
      var line := verb + " " + path + " " + ChatUtils.NatToString(statusCode) + " in " + ChatUtils.NatToString(durationMs) + "ms";
      var full := if capturedJson.Some? then line + " :: " + capturedJson.value else line;
      Some(TruncateLogLine(full))
  }

  /** A short line is logged whole, starting with the HTTP method and path. */
  lemma ShortLogLineIsWhole(verb: string, path: string, statusCode: nat, durationMs: nat)
    requires StartsWith(path, "/api") && |verb| + |path| <= 100
    ensures LogLine(verb, path, statusCode, durationMs, None).Some?
    ensures |LogLine(verb, path, statusCode, durationMs, None).value| <= LogLimit
    ensures IsPrefix(verb + " " + path + " ", LogLine(verb, path, statusCode, durationMs, None).value)
  {
    var line := verb + " " + path + " " + ChatUtils.NatToString(statusCode) + " in " + ChatUtils.NatToString(durationMs) + "ms";
    var head := verb + " " + path + " ";
    assert line == head + (ChatUtils.NatToString(statusCode) + " in " + ChatUtils.NatToString(durationMs) + "ms");
    if |line| > LogLimit {
      assert line[..LogLimit - 1][..|head|] == head;
    } else {
      assert line[..|head|] == head;
    }
  }

  // ----------------------------------------------------- one-time start-up

  /** How a memoised start-up promise settles. */
  datatype Settled = Fulfilled | Failed

  datatype EntryReply = Forwarded | InitError(status: int, body: string)

  /** The module-level `handler` and `initPromise`. */
  class Entry {
    var handlerSet: bool
    var initPromise: Option<Settled>
    var appsBuilt: nat          // Express apps created by `initApp`

    /**
     * Between requests: no app before the first start-up, at most one after
     * it, and the handler is set exactly when that start-up succeeded.
     */
    ghost predicate Valid()
      reads this
    {
      && appsBuilt <= 1
      && (initPromise.None? <==> appsBuilt == 0)
      && (handlerSet <==> initPromise == Some(Fulfilled))
    }

    constructor ()
      ensures Valid()
      ensures !handlerSet && initPromise.None? && appsBuilt == 0
    {
      handlerSet, initPromise, appsBuilt := false, None, 0;
    }

    /** `initApp()`; `registerFails` says whether `registerRoutes` rejects. */
    method InitApp(registerFails: bool) returns (s: Settled)
      modifies this
      ensures old(handlerSet) ==> s == Fulfilled && handlerSet && appsBuilt == old(appsBuilt)
      ensures !old(handlerSet) ==> appsBuilt == old(appsBuilt) + 1
      ensures !old(handlerSet) ==> (s == Fulfilled <==> !registerFails) && handlerSet == !registerFails
      ensures initPromise == old(initPromise)
    {
      if handlerSet {
        return Fulfilled;
      }
      appsBuilt := appsBuilt + 1;
      if registerFails {
        return Failed;
      }
      handlerSet := true;
      return Fulfilled;
    }

    /** `ensureInit()`: the first call starts `initApp`; every call returns that one promise. */
    method EnsureInit(registerFails: bool) returns (s: Settled)
      requires Valid()
      modifies this
      ensures Valid()
      ensures initPromise == Some(s) && appsBuilt == 1
      ensures handlerSet <==> s == Fulfilled
      ensures old(initPromise).Some? ==> s == old(initPromise).value && handlerSet == old(handlerSet) && appsBuilt == old(appsBuilt)
      ensures old(initPromise).None? ==>
        appsBuilt == old(appsBuilt) + 1 && (s == Fulfilled <==> !registerFails) && handlerSet == !registerFails
    {
      if initPromise.None? {
        var settled := InitApp(registerFails);
        initPromise := Some(settled);
      }
      return initPromise.value;
    }

    /** The exported request handler. */
    method Handle(registerFails: bool) returns (r: EntryReply)
      requires Valid()
      modifies this
      ensures Valid()
      ensures initPromise.Some? && appsBuilt == 1
      ensures r == Forwarded <==> initPromise == Some(Fulfilled) && handlerSet
      ensures r != Forwarded ==> r == InitError(500, "Server initialization error")
      ensures old(initPromise).None? ==>
        (r == Forwarded <==> !registerFails) && handlerSet == !registerFails && appsBuilt == old(appsBuilt) + 1
      ensures old(initPromise).Some? ==> initPromise == old(initPromise) && handlerSet == old(handlerSet) && appsBuilt == old(appsBuilt)
    {
      var s := EnsureInit(registerFails);
      if s == Failed || !handlerSet {
        return InitError(500, "Server initialization error");
      }
      return Forwarded;
    }
  }

  /** A failed start-up is remembered: every later request gets the error, and no second app is built. */
  method FailedStartIsPermanent(laterFails: bool) returns (first: EntryReply, second: EntryReply, apps: nat)
    ensures first == InitError(500, "Server initialization error")
    ensures second == first
    ensures apps == 1
  {
    var entry := new Entry();
    first := entry.Handle(true);
    second := entry.Handle(laterFails);
    apps := entry.appsBuilt;
  }

  /** Two requests on a fresh instance build exactly one app and both are forwarded. */
  method StartOnce() returns (first: EntryReply, second: EntryReply, apps: nat)
    ensures first == Forwarded && second == Forwarded && apps == 1
  {
    var entry := new Entry();
    first := entry.Handle(false);
    second := entry.Handle(false);
    apps := entry.appsBuilt;
  }
}
