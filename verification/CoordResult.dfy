/** What a sandbox run gives, how it is stored, and what reloading does to it. */
module CoordResult {
  import opened Basics

  datatype RunResult = RunResult(stdout: string, stderr: string, trace: seq<string>, exitCode: int,
                                 compileError: Option<string>, timedOut: bool, truncated: bool)

  /** The stored form; it has no place for a compile error. */
  datatype Payload = Payload(stdout: string, stderr: string, trace: seq<string>, exitCode: int, timedOut: bool, truncated: bool)

  const GUARD_CODES: set<int> := {-25, 153}

  const GUARD_MESSAGE := "Program stopped: its output hit the 64 MB output-size guard — usually an infinite loop writing trace/output forever. Add a loop bound or a break condition, then run again."

  /** White space as Python's str.strip sees it. */
  predicate IsSpace(c: char) {
    var n := c as int;
    || 0x09 <= n <= 0x0D || 0x1C <= n <= 0x20 || n == 0x85 || n == 0xA0 || n == 0x1680 || 0x2000 <= n <= 0x200A
    || n == 0x2028 || n == 0x2029 || n == 0x202F || n == 0x205F || n == 0x3000
  }

  function LeftStrip(s: string): (r: string)
    ensures |r| <= |s| && r == s[|s| - |r|..]
    ensures r != [] ==> !IsSpace(r[0])
    ensures |r| < |s| ==> IsSpace(s[0])
  {
    if s != [] && IsSpace(s[0]) then LeftStrip(s[1..]) else s
  }

  function RightStrip(s: string): string {
    if s != [] && IsSpace(s[|s| - 1]) then RightStrip(s[..|s| - 1]) else s
  }

  function Strip(s: string): string { RightStrip(LeftStrip(s)) }

  /** A death by the file-size limit gets a readable message and counts as truncated. */
  function ApplyOutputGuard(exitCode: int, stderr: string, truncated: bool): (string, bool) {
    if exitCode !in GUARD_CODES then (stderr, truncated)
    else (if stderr != "" then Strip(stderr + "\n" + GUARD_MESSAGE) else GUARD_MESSAGE, true)
  }

  function ToPayload(r: RunResult): Payload {
    Payload(r.stdout, r.stderr, r.trace, r.exitCode, r.timedOut, r.truncated)
  }

  /** Reading a stored result back applies the guard to it. */
  function FromPayload(p: Payload): RunResult {
    var (stderr, truncated) := ApplyOutputGuard(p.exitCode, p.stderr, p.truncated);
    RunResult(p.stdout, stderr, p.trace, p.exitCode, None, p.timedOut, truncated)
  }

  /** Appending a message and stripping never gives the text back. */
  lemma {:induction false} AppendedChanges(text: string, message: string)
    requires text != "" && message != "" && !IsSpace(message[|message| - 1])
    ensures Strip(text + "\n" + message) != text
  {
    hide IsSpace;
    var t := text + "\n" + message;
    var l := LeftStrip(t);
    assert t[|t| - 1] == message[|message| - 1];
    if l != [] { assert l[|l| - 1] == t[|t| - 1]; }
    assert RightStrip(l) == l;
  }

  lemma {:induction false} MessageEnds()
    ensures GUARD_MESSAGE != "" && !IsSpace(GUARD_MESSAGE[|GUARD_MESSAGE| - 1])
  {}

  lemma {:induction false} GuardRewrites(stderr: string, truncated: bool, exitCode: int)
    requires exitCode in GUARD_CODES
    ensures ApplyOutputGuard(exitCode, stderr, truncated).0 != stderr
  {
    MessageEnds();
    hide GUARD_MESSAGE, Strip;
    if stderr != "" { AppendedChanges(stderr, GUARD_MESSAGE); }
  }

  /** Storing and reloading gives the same result exactly when the run did not compile-fail and
      did not die by the file-size limit. */
  lemma {:induction false} ReloadExact(r: RunResult)
    ensures FromPayload(ToPayload(r)) == r <==> r.compileError.None? && r.exitCode !in GUARD_CODES
  {
    if r.exitCode in GUARD_CODES { GuardRewrites(r.stderr, r.truncated, r.exitCode); }
  }
}
