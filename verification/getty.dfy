/**
 * The session controller of crochet-getty: the `/etc/issue` banner renderer
 * and one round of the main loop (open the tty, set its owner and mode,
 * clear it, write the banner, run `/bin/login` and wait for it).
 *
 * Effects are recorded as a trace of calls on a `Host`. What the operating
 * system answers is injected by a `World`, whose functions take the position
 * of the call in the trace, so any schedule of successes and failures can be
 * expressed.
 */
module Getty {
  import opened Wrappers
  import opened GettySys

  const DEV_PREFIX: string := "/dev/"
  const ROOT: string := "root"
  const TTY_GROUP: string := "tty"
  /** Octal 620: owner read-write, group write, no access for others. */
  const TTY_MODE: int := 0x190
  const LOGIN: string := "/bin/login"

  /** The ECMA-48 control sequence introducer, ESC followed by '['. */
  const CSI: string := "\U{1b}["
  /** ED "Erase in Display" with parameter 2, then CUP "Cursor Position" to row 1, column 1. */
  const CLEAR_SEQUENCE: string := "\U{1b}[2J\U{1b}[1;1H"

  const CHOWN_FAILED: string := "Failed to set owner/group on tty"
  const CHMOD_FAILED: string := "Failed to permission bits on tty"
  const SPAWN_FAILED: string := "Failed."

  /** The clear sequence is ECMA-48 ED(2) (section 8.3.39) followed by CUP(1;1) (section 8.3.21). */
  lemma ClearSequenceIsEraseThenHome()
    ensures CLEAR_SEQUENCE == CSI + "2J" + CSI + "1;1H"
    ensures |CLEAR_SEQUENCE| == 10 && CLEAR_SEQUENCE[0] == 27 as char
  {
  }

  // ---------------------------------------------------------------------------
  // The banner
  // ---------------------------------------------------------------------------

  /**
   * What `Issue::render` produces from `issue` when the clock reads `clock`:
   * `\t` becomes the clock, `\X` for any other X stays `\X`, a lone final
   * backslash vanishes and every other character is copied.
   */
  function Render(issue: string, clock: string): string
    decreases |issue|
  {
    if issue == [] then []
    else if issue[0] != '\\' then [issue[0]] + Render(issue[1..], clock)
    else if |issue| == 1 then []
    else (if issue[1] == 't' then clock else ['\\', issue[1]]) + Render(issue[2..], clock)
  }

  /** `Issue::render`: one pass over the characters, pushing onto `rendered`. */
  method RenderIssue(issue: string, clock: string) returns (rendered: string)
    ensures rendered == Render(issue, clock)
  {
    rendered := [];
    var i := 0;
    while i < |issue|
      invariant 0 <= i <= |issue|
      invariant rendered + Render(issue[i..], clock) == Render(issue, clock)
    {
      ghost var rest := issue[i..];
      var c := issue[i];
      i := i + 1;
      var piece: string;
      if c != '\\' {
        piece := [c];
        assert rest[1..] == issue[i..];
      } else if i == |issue| {
        piece := [];
      } else {
        var opcode := issue[i];
        i := i + 1;
        piece := if opcode == 't' then clock else ['\\', opcode];
        assert rest[2..] == issue[i..];
      }
      assert Render(rest, clock) == piece + Render(issue[i..], clock);
      assert rendered + piece + Render(issue[i..], clock) == rendered + Render(rest, clock);
      rendered := rendered + piece;
    }
  }

  /** Text without a backslash is copied unchanged and in order. */
  lemma {:induction false} RenderCopiesPlainText(s: string, clock: string)
    requires '\\' !in s
    ensures Render(s, clock) == s
  {
    if s != [] {
      RenderCopiesPlainText(s[1..], clock);
    }
  }

  /** The number of backslashes that end `s`. */
  function TrailingBackslashes(s: string): (k: nat)
    ensures k <= |s|
    ensures k == |s| > 0 ==> s[0] == '\\'
    ensures k < |s| ==> s[|s| - 1 - k] != '\\'
    decreases |s|
  {
    if s == [] || s[|s| - 1] != '\\' then 0 else 1 + TrailingBackslashes(s[..|s| - 1])
  }

  /** A suffix of `s` keeps the trailing backslashes that fit in it. */
  lemma {:induction false} TrailingBackslashesOfSuffix(s: string, k: nat)
    requires k <= |s|
    ensures TrailingBackslashes(s[k..]) == if TrailingBackslashes(s) <= |s| - k then TrailingBackslashes(s) else |s| - k
    decreases |s|
  {
    if k < |s| && s[|s| - 1] == '\\' {
      var t := s[..|s| - 1];
      assert s[k..][..|s| - k - 1] == t[k..];
      TrailingBackslashesOfSuffix(t, k);
    }
  }

  /**
   * `s` ends outside an escape: its final run of backslashes pairs up, so
   * no backslash at its end waits for an opcode.
   */
  predicate EndsOutsideEscape(s: string)
  {
    TrailingBackslashes(s) % 2 == 0
  }

  /** Rendering splits at any point that is outside an escape. */
  lemma {:induction false} RenderAppend(p: string, q: string, clock: string)
    requires EndsOutsideEscape(p)
    ensures Render(p + q, clock) == Render(p, clock) + Render(q, clock)
    decreases |p|, 1
  {
    if p == [] {
      assert p + q == q;
    } else if p[0] != '\\' {
      TrailingBackslashesOfSuffix(p, 1);
      calc {
        Render(p + q, clock);
      == { assert (p + q)[1..] == p[1..] + q; }
        [p[0]] + Render(p[1..] + q, clock);
      == { RenderAppend(p[1..], q, clock); }
        [p[0]] + (Render(p[1..], clock) + Render(q, clock));
      == ([p[0]] + Render(p[1..], clock)) + Render(q, clock);
      }
    } else {
      RenderAppendEscape(p, q, clock);
    }
  }

  /** RenderAppend when `p` starts with an escape. */
  lemma {:induction false} RenderAppendEscape(p: string, q: string, clock: string)
    requires EndsOutsideEscape(p) && p != [] && p[0] == '\\'
    ensures Render(p + q, clock) == Render(p, clock) + Render(q, clock)
    decreases |p|, 0
  {
    EscapeHasOpcode(p);
    var piece := if p[1] == 't' then clock else ['\\', p[1]];
    calc {
      Render(p + q, clock);
    == { RenderEscapeThenRest(p, q, clock); }
      piece + Render(p[2..] + q, clock);
    == { RenderAppend(p[2..], q, clock); }
      piece + (Render(p[2..], clock) + Render(q, clock));
    == (piece + Render(p[2..], clock)) + Render(q, clock);
    == { RenderEscape(p, clock); }
      Render(p, clock) + Render(q, clock);
    }
  }

  /** An escape at the start of `p` is rendered the same whatever follows `p`. */
  lemma RenderEscapeThenRest(p: string, q: string, clock: string)
    requires |p| >= 2 && p[0] == '\\'
    ensures Render(p + q, clock) == (if p[1] == 't' then clock else ['\\', p[1]]) + Render(p[2..] + q, clock)
  {
    RenderEscape(p + q, clock);
    assert (p + q)[2..] == p[2..] + q;
  }

  /** How an escape at the start of `s` is rendered. */
  lemma RenderEscape(s: string, clock: string)
    requires |s| >= 2 && s[0] == '\\'
    ensures Render(s, clock) == (if s[1] == 't' then clock else ['\\', s[1]]) + Render(s[2..], clock)
  {
  }

  /**
   * A backslash that starts a text ending outside an escape is followed by
   * its opcode, and the rest again ends outside an escape.
   */
  lemma EscapeHasOpcode(p: string)
    requires EndsOutsideEscape(p) && p != [] && p[0] == '\\'
    ensures |p| >= 2 && EndsOutsideEscape(p[2..])
  {
    assert TrailingBackslashes(p[..|p| - 1]) % 2 == 1 || p[|p| - 1] != '\\';
    TrailingBackslashesOfSuffix(p, 2);
  }

  /** `\t` becomes the clock reading. */
  lemma RenderReplacesTab(p: string, q: string, clock: string)
    requires EndsOutsideEscape(p)
    ensures Render(p + "\\t" + q, clock) == Render(p, clock) + clock + Render(q, clock)
  {
    var tq := "\\t" + q;
    calc {
      Render(p + "\\t" + q, clock);
    == { assert p + "\\t" + q == p + tq; }
      Render(p + tq, clock);
    == { RenderAppend(p, tq, clock); }
      Render(p, clock) + Render(tq, clock);
    == { RenderEscape(tq, clock); assert tq[2..] == q; }
      Render(p, clock) + (clock + Render(q, clock));
    == Render(p, clock) + clock + Render(q, clock);
    }
  }

  /** `\X` for any X other than 't' is written back literally. */
  lemma RenderKeepsOtherEscapes(p: string, x: char, q: string, clock: string)
    requires EndsOutsideEscape(p) && x != 't'
    ensures Render(p + ['\\', x] + q, clock) == Render(p, clock) + ['\\', x] + Render(q, clock)
  {
    assert p + ['\\', x] + q == p + (['\\', x] + q);
    RenderAppend(p, ['\\', x] + q, clock);
  }

  /** A lone backslash at the very end is dropped. */
  lemma RenderDropsLoneTrailingBackslash(p: string, clock: string)
    requires EndsOutsideEscape(p)
    ensures Render(p + "\\", clock) == Render(p, clock)
  {
    RenderAppend(p, "\\", clock);
  }

  /**
   * No escape in `s` is `\t`: every backslash that opens an escape (one
   * preceded by an even run of backslashes) is followed by something other
   * than 't'.
   */
  predicate NoTabEscape(s: string)
  {
    forall i :: 0 <= i < |s| - 1 && s[i] == '\\' && TrailingBackslashes(s[..i]) % 2 == 0 ==> s[i + 1] != 't'
  }

  /** The length of the piece `Render` consumes at the start of `s`: an escape or one character. */
  function PieceLength(s: string): (k: nat)
    requires s != []
    ensures 1 <= k <= 2
  {
    if s[0] == '\\' then 2 else 1
  }

  /** Dropping the first piece keeps the parity of the backslashes that end each prefix. */
  lemma PieceKeepsParity(s: string, i: nat)
    requires s != [] && PieceLength(s) + i <= |s|
    ensures var k := PieceLength(s); TrailingBackslashes(s[k..][..i]) % 2 == TrailingBackslashes(s[..i + k]) % 2
  {
    var k := PieceLength(s);
    assert s[..i + k][k..] == s[k..i + k] == s[k..][..i];
    TrailingBackslashesOfSuffix(s[..i + k], k);
  }

  /** A text that ends outside an escape holds its whole first piece, and so does what follows it. */
  lemma EndsOutsideEscapeAfterPiece(s: string)
    requires s != [] && EndsOutsideEscape(s)
    ensures PieceLength(s) <= |s| && EndsOutsideEscape(s[PieceLength(s)..])
  {
    if s[0] == '\\' {
      EscapeHasOpcode(s);
    } else {
      TrailingBackslashesOfSuffix(s, 1);
    }
  }

  /** Dropping the first piece keeps a template free of `\t` escapes. */
  lemma NoTabEscapeAfterPiece(s: string)
    requires s != [] && PieceLength(s) <= |s| && NoTabEscape(s)
    ensures NoTabEscape(s[PieceLength(s)..])
  {
    var k := PieceLength(s);
    var t := s[k..];
    forall i | 0 <= i < |t| - 1 && t[i] == '\\' && TrailingBackslashes(t[..i]) % 2 == 0
      ensures t[i + 1] != 't'
    {
      PieceKeepsParity(s, i);
      assert s[i + k] == t[i] && s[i + k + 1] == t[i + 1];
    }
  }

  /** A template with no `\t` escape that does not end inside an escape renders to itself. */
  lemma {:induction false} RenderIdentity(s: string, clock: string)
    requires EndsOutsideEscape(s) && NoTabEscape(s)
    ensures Render(s, clock) == s
    decreases |s|
  {
    if s != [] {
      var k := PieceLength(s);
      EndsOutsideEscapeAfterPiece(s);
      NoTabEscapeAfterPiece(s);
      RenderIdentity(s[k..], clock);
      if s[0] == '\\' {
        assert TrailingBackslashes(s[..0]) == 0;
        RenderEscape(s, clock);
      }
      assert s == s[..k] + s[k..];
    }
  }

  /** In text otherwise free of backslashes, a single `\t` is replaced by the clock and nothing else changes. */
  lemma RenderTabInPlainText(p: string, q: string, clock: string)
    requires '\\' !in p && '\\' !in q
    ensures Render(p + "\\t" + q, clock) == p + clock + q
  {
    assert EndsOutsideEscape(p) by {
      if p != [] { assert p[|p| - 1] != '\\'; }
    }
    RenderReplacesTab(p, q, clock);
    RenderCopiesPlainText(p, clock);
    RenderCopiesPlainText(q, clock);
  }

  /** The banner "Welcome\t" and a newline at 13:05:09: no separator is inserted before the time. */
  lemma WelcomeBanner()
    ensures Render("Welcome" + "\\t" + "\n", "13:05:09") == "Welcome13:05:09\n"
  {
    RenderTabInPlainText("Welcome", "\n", "13:05:09");
  }

  // ---------------------------------------------------------------------------
  // Effects
  // ---------------------------------------------------------------------------

  /** A call the controller makes on the operating system. */
  datatype Event =
    | Open(path: string)                       // open read+write
    | Chown(fd: int, user: string, group: string)
    | Chmod(fd: int, mode: int)
    | Write(fd: int, text: string)
    | ReadIssue                                // read /etc/issue
    | Spawn(program: string, stdin: int, stdout: int, stderr: int)
    | Wait(child: int)

  /** The operating system's answer to the call at each position of the trace. */
  datatype World = World(
    dir: Directory,
    open: (nat, string) -> Result<int, IoError>,
    libc: nat -> Libc,
    write: (nat, int, string) -> Result<(), IoError>,
    issue: nat -> Result<string, IoError>,
    clock: nat -> string,
    spawn: nat -> Result<int, IoError>,
    wait: (nat, int) -> Result<int, IoError>)

  /** How a step ends: on to the next step, an `Err` returned from `main` by `?`, or a panic at `expect`. */
  datatype Flow<T> = Go(value: T) | Exit(err: IoError) | Panic(msg: string)
  {
    function Stop<U>(): (f: Flow<U>)
      requires !Go?
      ensures !f.Go?
    {
      match this
      case Exit(e) => Exit(e)
      case Panic(m) => Panic(m)
    }
  }

  /** The calls a step makes, and how it ends. */
  datatype Round<T> = Round(calls: seq<Event>, end: Flow<T>)

  /** The calls `open_tty` makes when nothing fails. */
  function OpenCalls(path: string, fd: int): seq<Event>
  {
    [Open(path), Chown(fd, ROOT, TTY_GROUP), Chmod(fd, TTY_MODE)]
  }

  /** The calls made on an open tty when nothing fails. */
  function SessionCalls(fd: int, banner: string, child: int): seq<Event>
  {
    [Write(fd, CLEAR_SEQUENCE), ReadIssue, Write(fd, "\n"), Write(fd, banner),
     Spawn(LOGIN, fd, fd, fd), Wait(child)]
  }

  /** Every call of one round of the main loop, in order, when nothing fails. */
  function FullRound(path: string, fd: int, banner: string, child: int): seq<Event>
  {
    OpenCalls(path, fd) + SessionCalls(fd, banner, child)
  }

  /** `open_tty(fragment)` starting at trace position n. */
  function OpenTtySpec(w: World, n: nat, fragment: string): Round<int>
  {
    var path := DEV_PREFIX + fragment;
    match w.open(n, path)
    case Err(e) => Round([Open(path)], Exit(e))
    case Ok(fd) =>
      if Fchown(fd, ROOT, TTY_GROUP, w.dir, w.libc(n + 1)).Err? then
        Round([Open(path), Chown(fd, ROOT, TTY_GROUP)], Panic(CHOWN_FAILED))
      else if Fchmod(fd, TTY_MODE, w.libc(n + 2)).Err? then
        Round([Open(path), Chown(fd, ROOT, TTY_GROUP), Chmod(fd, TTY_MODE)], Panic(CHMOD_FAILED))
      else
        Round([Open(path), Chown(fd, ROOT, TTY_GROUP), Chmod(fd, TTY_MODE)], Go(fd))
  }

  /** Clear the tty, read the issue, then write a newline and the rendered issue, from trace position n. */
  function IssueSpec(w: World, n: nat, fd: int): Round<()>
  {
    match w.write(n, fd, CLEAR_SEQUENCE)
    case Err(e) => Round([Write(fd, CLEAR_SEQUENCE)], Exit(e))
    case Ok(_) =>
      match w.issue(n + 1)
      case Err(e) => Round([Write(fd, CLEAR_SEQUENCE), ReadIssue], Exit(e))
      case Ok(issue) =>
        match w.write(n + 2, fd, "\n")
        case Err(e) => Round([Write(fd, CLEAR_SEQUENCE), ReadIssue, Write(fd, "\n")], Exit(e))
        case Ok(_) =>
          var banner := Render(issue, w.clock(n + 3));
          var calls := [Write(fd, CLEAR_SEQUENCE), ReadIssue, Write(fd, "\n"), Write(fd, banner)];
          match w.write(n + 3, fd, banner)
          case Err(e) => Round(calls, Exit(e))
          case Ok(_) => Round(calls, Go(()))
  }

  /** Spawn login on the tty and wait for it, from trace position n. */
  function LoginSpec(w: World, n: nat, fd: int): Round<()>
  {
    match w.spawn(n)
    case Err(_) => Round([Spawn(LOGIN, fd, fd, fd)], Panic(SPAWN_FAILED))
    case Ok(child) =>
      match w.wait(n + 1, child)
      case Err(e) => Round([Spawn(LOGIN, fd, fd, fd), Wait(child)], Exit(e))
      case Ok(_) => Round([Spawn(LOGIN, fd, fd, fd), Wait(child)], Go(()))
  }

  /** The calls `calls`, followed by those of `rest`. */
  function Prepend<T>(calls: seq<Event>, rest: Round<T>): Round<T>
  {
    Round(calls + rest.calls, rest.end)
  }

  /** What happens on an open tty: the banner, then login, from trace position n. */
  function SessionSpec(w: World, n: nat, fd: int): Round<()>
  {
    var i := IssueSpec(w, n, fd);
    if !i.end.Go? then i
    else Prepend(i.calls, LoginSpec(w, n + |i.calls|, fd))
  }

  /** One round of the loop in `main`, starting at trace position n. */
  function RoundSpec(w: World, n: nat, port: string): Round<()>
  {
    var o := OpenTtySpec(w, n, port);
    if !o.end.Go? then Round(o.calls, o.end.Stop())
    else Prepend(o.calls, SessionSpec(w, n + |o.calls|, o.end.value))
  }


  /**
   * The first `rounds` rounds of a loop whose round starting at trace
   * position m is `step(m)`: the rounds before the last, and the last one
   * only if every earlier round went on.
   */
  function Loop(step: nat -> Round<()>, n: nat, rounds: nat): Round<()>
    decreases rounds
  {
    if rounds == 0 then Round([], Go(()))
    else
      var p := Loop(step, n, rounds - 1);
      if !p.end.Go? then p
      else Prepend(p.calls, step(n + |p.calls|))
  }

  /** The rounds of the loop in `main`, each one a RoundSpec. */
  function Rounds(w: World, port: string): nat -> Round<()>
  {
    (m: nat) => RoundSpec(w, m, port)
  }

  /** The first `rounds` rounds of the loop in `main`, starting at trace position n. */
  function LoopSpec(w: World, n: nat, port: string, rounds: nat): Round<()>
  {
    Loop(Rounds(w, port), n, rounds)
  }

  /** If the first k rounds went on, round k+1 starts where they ended. */
  lemma LoopNext(step: nat -> Round<()>, n: nat, k: nat, calls: seq<Event>)
    requires Loop(step, n, k).calls == calls && Loop(step, n, k).end.Go?
    ensures Loop(step, n, k + 1) == Prepend(calls, step(n + |calls|))
  {
  }

  /** Once a round does not go on, later rounds change nothing: the loop has left `main`. */
  lemma {:induction false} LoopStops(step: nat -> Round<()>, n: nat, k: nat, m: nat)
    requires k <= m && !Loop(step, n, k).end.Go?
    ensures Loop(step, n, m) == Loop(step, n, k)
    decreases m
  {
    if m > k {
      LoopStops(step, n, k, m - 1);
    }
  }

  /** The calls of the first k rounds are a prefix of those of the first m rounds. */
  lemma {:induction false} LoopPrefix(step: nat -> Round<()>, n: nat, k: nat, m: nat)
    requires k <= m
    ensures Loop(step, n, k).calls <= Loop(step, n, m).calls
    decreases m
  {
    if m > k {
      LoopPrefix(step, n, k, m - 1);
    }
  }

  /** When the first round goes on, the second follows it directly. */
  lemma LoopTwoRounds(step: nat -> Round<()>, n: nat)
    requires step(n).end.Go?
    ensures Loop(step, n, 2).calls == step(n).calls + step(n + |step(n).calls|).calls
  {
    assert Loop(step, n, 1).calls == [] + step(n).calls;
  }

  /** The first two rounds open every run of at least two rounds when the first goes on. */
  lemma LoopSecondRound(step: nat -> Round<()>, n: nat, rounds: nat)
    requires rounds >= 2 && step(n).end.Go?
    ensures step(n).calls + step(n + |step(n).calls|).calls <= Loop(step, n, rounds).calls
  {
    LoopTwoRounds(step, n);
    LoopPrefix(step, n, 2, rounds);
  }

  // ---------------------------------------------------------------------------
  // What a round guarantees
  // ---------------------------------------------------------------------------

  /** Every round opens exactly "/dev/" followed by the port; if that fails, nothing else happens. */
  lemma RoundOpensDevicePath(w: World, n: nat, port: string)
    ensures var r := RoundSpec(w, n, port);
      && |r.calls| >= 1 && r.calls[0] == Open(DEV_PREFIX + port)
      && (w.open(n, DEV_PREFIX + port).Err? ==>
            r.calls == [Open(DEV_PREFIX + port)] && r.end == Exit(w.open(n, DEV_PREFIX + port).error))
  {
  }

  /**
   * If the owner or the mode cannot be set, the round panics having made
   * only the open, chown and chmod calls: nothing is written to the tty and
   * login is never spawned.
   */
  lemma ProvisioningFailureHaltsHandoff(w: World, n: nat, port: string)
    requires w.open(n, DEV_PREFIX + port).Ok?
    requires var fd := w.open(n, DEV_PREFIX + port).value;
      Fchown(fd, ROOT, TTY_GROUP, w.dir, w.libc(n + 1)).Err? || Fchmod(fd, TTY_MODE, w.libc(n + 2)).Err?
    ensures var r := RoundSpec(w, n, port); var fd := w.open(n, DEV_PREFIX + port).value;
      && r.end == Panic(if Fchown(fd, ROOT, TTY_GROUP, w.dir, w.libc(n + 1)).Err? then CHOWN_FAILED else CHMOD_FAILED)
      && forall i :: 0 <= i < |r.calls| ==> r.calls[i].Open? || r.calls[i].Chown? || r.calls[i].Chmod?
  {
  }

  /** The chmod call comes right after a successful chown on the same descriptor. */
  lemma ChownBeforeChmod(w: World, n: nat, port: string, j: nat)
    requires var r := RoundSpec(w, n, port); j < |r.calls| && r.calls[j].Chmod?
    ensures w.open(n, DEV_PREFIX + port).Ok?
    ensures var r := RoundSpec(w, n, port); var fd := w.open(n, DEV_PREFIX + port).value;
      && j == 2 && r.calls[1] == Chown(fd, ROOT, TTY_GROUP) && r.calls[2] == Chmod(fd, TTY_MODE)
      && Fchown(fd, ROOT, TTY_GROUP, w.dir, w.libc(n + 1)).Ok?
  {
  }

  /** `open_tty` makes its calls in order, and all three when it succeeds. */
  lemma OpenTtyFollowsFixedOrder(w: World, n: nat, port: string)
    ensures var path := DEV_PREFIX + port;
      var fd := if w.open(n, path).Ok? then w.open(n, path).value else 0;
      OpenTtySpec(w, n, port).calls <= OpenCalls(path, fd)
    ensures OpenTtySpec(w, n, port).end.Go? ==>
      OpenTtySpec(w, n, port).calls == OpenCalls(DEV_PREFIX + port, OpenTtySpec(w, n, port).end.value)
  {
  }

  /** On an open tty the calls are made in order, all six when the session ends normally. */
  lemma SessionFollowsFixedOrder(w: World, n: nat, fd: int)
    ensures var banner := if w.issue(n + 1).Ok? then Render(w.issue(n + 1).value, w.clock(n + 3)) else [];
      var child := if w.spawn(n + 4).Ok? then w.spawn(n + 4).value else 0;
      SessionSpec(w, n, fd).calls <= SessionCalls(fd, banner, child)
    ensures SessionSpec(w, n, fd).end.Go? ==> |SessionSpec(w, n, fd).calls| == 6
  {
  }

  /** A prefix of `a`, or all of `a` followed by a prefix of `b`, is a prefix of `a + b`. */
  lemma PrefixOfAppend<T>(x: seq<T>, y: seq<T>, a: seq<T>, b: seq<T>)
    requires x <= a && (y != [] ==> x == a) && y <= b
    ensures x + y <= a + b
  {
    if y != [] {
      assert (a + b)[..|a| + |y|] == a + y;
    } else {
      assert x + y == x;
      assert (a + b)[..|x|] == a[..|x|];
    }
  }

  /**
   * A round's calls always follow the fixed order: open, chown, chmod,
   * clear, read the issue, newline, banner, spawn login on the tty, wait,
   * with the descriptor, banner and child the operating system gave.
   */
  lemma RoundFollowsFixedOrder(w: World, n: nat, port: string)
    ensures var path := DEV_PREFIX + port;
      var fd := if w.open(n, path).Ok? then w.open(n, path).value else 0;
      var banner := if w.issue(n + 4).Ok? then Render(w.issue(n + 4).value, w.clock(n + 6)) else [];
      var child := if w.spawn(n + 7).Ok? then w.spawn(n + 7).value else 0;
      RoundSpec(w, n, port).calls <= FullRound(path, fd, banner, child)
  {
    var path := DEV_PREFIX + port;
    var fd := if w.open(n, path).Ok? then w.open(n, path).value else 0;
    var banner := if w.issue(n + 4).Ok? then Render(w.issue(n + 4).value, w.clock(n + 6)) else [];
    var child := if w.spawn(n + 7).Ok? then w.spawn(n + 7).value else 0;
    var o := OpenTtySpec(w, n, port);
    OpenTtyFollowsFixedOrder(w, n, port);
    var rest := RoundSplits(w, n, port);
    if o.end.Go? {
      SessionFollowsFixedOrder(w, n + 3, fd);
    }
    PrefixOfAppend(o.calls, rest, OpenCalls(path, fd), SessionCalls(fd, banner, child));
  }

  /** A round's calls are those of `open_tty`, then, if it succeeded, those of the session on the descriptor it opened. */
  lemma RoundSplits(w: World, n: nat, port: string) returns (rest: seq<Event>)
    ensures var o := OpenTtySpec(w, n, port);
      && RoundSpec(w, n, port).calls == o.calls + rest
      && (o.end.Go? ==> |o.calls| == 3 && rest == SessionSpec(w, n + 3, o.end.value).calls)
      && (!o.end.Go? ==> rest == [])
  {
    var o := OpenTtySpec(w, n, port);
    if o.end.Go? {
      rest := SessionSpec(w, n + 3, o.end.value).calls;
    } else {
      rest := [];
    }
  }

  /** A round that goes on to the next one has made all nine calls. */
  lemma RoundGoesOnAfterNineCalls(w: World, n: nat, port: string)
    requires RoundSpec(w, n, port).end.Go?
    ensures |RoundSpec(w, n, port).calls| == |FullRound(DEV_PREFIX + port, 0, [], 0)|
  {
    OpenTtyFollowsFixedOrder(w, n, port);
    SessionFollowsFixedOrder(w, n + 3, OpenTtySpec(w, n, port).end.value);
  }

  /**
   * Login is spawned only after every earlier step succeeded, with the tty
   * descriptor as its stdin, stdout and stderr, and after the clear
   * sequence, a newline and the rendered issue were written to it.
   */
  lemma SpawnOnlyAfterBanner(w: World, n: nat, port: string, i: nat)
    requires var r := RoundSpec(w, n, port); i < |r.calls| && r.calls[i].Spawn?
    ensures w.open(n, DEV_PREFIX + port).Ok? && w.issue(n + 4).Ok?
    ensures var r := RoundSpec(w, n, port); var fd := w.open(n, DEV_PREFIX + port).value;
      var banner := Render(w.issue(n + 4).value, w.clock(n + 6));
      && Fchown(fd, ROOT, TTY_GROUP, w.dir, w.libc(n + 1)).Ok? && Fchmod(fd, TTY_MODE, w.libc(n + 2)).Ok?
      && w.write(n + 3, fd, CLEAR_SEQUENCE).Ok? && w.write(n + 5, fd, "\n").Ok? && w.write(n + 6, fd, banner).Ok?
      && i == 7
      && r.calls[..8] == FullRound(DEV_PREFIX + port, fd, banner, 0)[..8]
      && r.calls[7] == Spawn(LOGIN, fd, fd, fd)
  {
  }

  /** After a session ends normally, the next round opens the same device again. */
  lemma LoopReopensDevice(w: World, n: nat, port: string, rounds: nat)
    requires rounds >= 2 && RoundSpec(w, n, port).end.Go?
    ensures var l := LoopSpec(w, n, port, rounds);
      |l.calls| > 9 && l.calls[9] == Open(DEV_PREFIX + port)
  {
    RoundGoesOnAfterNineCalls(w, n, port);
    RoundOpensDevicePath(w, n + 9, port);
    LoopSecondRound(Rounds(w, port), n, rounds);
  }

  // ---------------------------------------------------------------------------
  // The controller
  // ---------------------------------------------------------------------------

  /** The process's view of the operating system: the calls made so far. */
  class Host {
    const world: World
    var trace: seq<Event>

    constructor(w: World)
      ensures world == w && trace == []
    {
      world := w;
      trace := [];
    }

    method OpenDevice(path: string) returns (r: Result<int, IoError>)
      modifies this
      ensures trace == old(trace) + [Open(path)]
      ensures r == world.open(|old(trace)|, path)
    {
      r := world.open(|trace|, path);
      trace := trace + [Open(path)];
    }

    method SetOwner(fd: int, user: string, group: string) returns (r: Result<(), ChownError>)
      modifies this
      ensures trace == old(trace) + [Chown(fd, user, group)]
      ensures r == Fchown(fd, user, group, world.dir, world.libc(|old(trace)|))
    {
      r := Fchown(fd, user, group, world.dir, world.libc(|trace|));
      trace := trace + [Chown(fd, user, group)];
    }

    method SetMode(fd: int, mode: int) returns (r: Result<(), IoError>)
      modifies this
      ensures trace == old(trace) + [Chmod(fd, mode)]
      ensures r == Fchmod(fd, mode, world.libc(|old(trace)|))
    {
      r := Fchmod(fd, mode, world.libc(|trace|));
      trace := trace + [Chmod(fd, mode)];
    }

    method WriteText(fd: int, text: string) returns (r: Result<(), IoError>)
      modifies this
      ensures trace == old(trace) + [Write(fd, text)]
      ensures r == world.write(|old(trace)|, fd, text)
    {
      r := world.write(|trace|, fd, text);
      trace := trace + [Write(fd, text)];
    }

    /** `get_issue`: read `/etc/issue`. */
    method GetIssue() returns (r: Result<string, IoError>)
      modifies this
      ensures trace == old(trace) + [ReadIssue]
      ensures r == world.issue(|old(trace)|)
    {
      r := world.issue(|trace|);
      trace := trace + [ReadIssue];
    }

    /** The clock as `%H:%M:%S`, read when the next call is made. */
    method Now() returns (clock: string)
      ensures clock == world.clock(|trace|)
    {
      clock := world.clock(|trace|);
    }

    /** Spawn `/bin/login` with `fd` as its three standard streams. */
    method SpawnLogin(fd: int) returns (r: Result<int, IoError>)
      modifies this
      ensures trace == old(trace) + [Spawn(LOGIN, fd, fd, fd)]
      ensures r == world.spawn(|old(trace)|)
    {
      r := world.spawn(|trace|);
      trace := trace + [Spawn(LOGIN, fd, fd, fd)];
    }

    method WaitChild(child: int) returns (r: Result<int, IoError>)
      modifies this
      ensures trace == old(trace) + [Wait(child)]
      ensures r == world.wait(|old(trace)|, child)
    {
      r := world.wait(|trace|, child);
      trace := trace + [Wait(child)];
    }

    /** `open_tty`: open the device, then chown it to root:tty, then chmod it 0620; either failure panics. */
    method OpenTty(fragment: string) returns (r: Flow<int>)
      modifies this
      ensures trace == old(trace) + OpenTtySpec(world, |old(trace)|, fragment).calls
      ensures r == OpenTtySpec(world, |old(trace)|, fragment).end
    {
      var device := OpenDevice(DEV_PREFIX + fragment);
      if device.Err? {
        return Exit(device.error);
      }
      var fd := device.value;
      var owned := SetOwner(fd, ROOT, TTY_GROUP);
      if owned.Err? {
        return Panic(CHOWN_FAILED);
      }
      var moded := SetMode(fd, TTY_MODE);
      if moded.Err? {
        return Panic(CHMOD_FAILED);
      }
      r := Go(fd);
    }

    /** `clear_tty`: write the ED and CUP sequence. */
    method ClearTty(fd: int) returns (r: Result<(), IoError>)
      modifies this
      ensures trace == old(trace) + [Write(fd, CLEAR_SEQUENCE)]
      ensures r == world.write(|old(trace)|, fd, CLEAR_SEQUENCE)
    {
      r := WriteText(fd, CLEAR_SEQUENCE);
    }

    /** Clear the tty, read `/etc/issue`, write a newline, then write the rendered issue. */
    method ShowIssue(fd: int) returns (r: Flow<()>)
      modifies this
      ensures trace == old(trace) + IssueSpec(world, |old(trace)|, fd).calls
      ensures r == IssueSpec(world, |old(trace)|, fd).end
    {
      var cleared := ClearTty(fd);
      if cleared.Err? {
        return Exit(cleared.error);
      }
      var issue := GetIssue();
      if issue.Err? {
        return Exit(issue.error);
      }
      var newline := WriteText(fd, "\n");
      if newline.Err? {
        return Exit(newline.error);
      }
      var clock := Now();
      var banner := RenderIssue(issue.value, clock);
      var written := WriteText(fd, banner);
      if written.Err? {
        return Exit(written.error);
      }
      r := Go(());
    }

    /** Spawn `/bin/login` on the tty (a spawn failure panics) and wait for it to exit. */
    method RunLogin(fd: int) returns (r: Flow<()>)
      modifies this
      ensures trace == old(trace) + LoginSpec(world, |old(trace)|, fd).calls
      ensures r == LoginSpec(world, |old(trace)|, fd).end
    {
      var child := SpawnLogin(fd);
      if child.Err? {
        return Panic(SPAWN_FAILED);
      }
      var status := WaitChild(child.value);
      if status.Err? {
        return Exit(status.error);
      }
      r := Go(());
    }

    /** Show the banner on the open tty, then run login on it. */
    method Session(fd: int) returns (r: Flow<()>)
      modifies this
      ensures trace == old(trace) + SessionSpec(world, |old(trace)|, fd).calls
      ensures r == SessionSpec(world, |old(trace)|, fd).end
    {
      r := ShowIssue(fd);
      if !r.Go? {
        return;
      }
      r := RunLogin(fd);
    }

    /** The body of the loop in `main`. */
    method LoopBody(port: string) returns (r: Flow<()>)
      modifies this
      ensures trace == old(trace) + RoundSpec(world, |old(trace)|, port).calls
      ensures r == RoundSpec(world, |old(trace)|, port).end
    {
      var tty := OpenTty(port);
      if !tty.Go? {
        return tty.Stop();
      }
      r := Session(tty.value);
    }

    /** The loop of `main`, cut off after `rounds` rounds. */
    method Serve(port: string, rounds: nat) returns (r: Flow<()>)
      modifies this
      ensures trace == old(trace) + LoopSpec(world, |old(trace)|, port, rounds).calls
      ensures r == LoopSpec(world, |old(trace)|, port, rounds).end
    {
      r := RunRounds(port, rounds, Rounds(world, port));
    }

    /** LoopBody, seen as the round `step` says starts here. */
    method NextRound(port: string, ghost step: nat -> Round<()>) returns (r: Flow<()>)
      requires forall m {:trigger RoundSpec(world, m, port)} :: step(m) == RoundSpec(world, m, port)
      modifies this
      ensures trace == old(trace) + step(|old(trace)|).calls
      ensures r == step(|old(trace)|).end
    {
      r := LoopBody(port);
    }

    /**
     * The loop itself, against `step`, the rounds it runs. Each round is
     * related to its RoundSpec only where one is run.
     */
    method RunRounds(port: string, rounds: nat, ghost step: nat -> Round<()>) returns (r: Flow<()>)
      requires forall m {:trigger RoundSpec(world, m, port)} :: step(m) == RoundSpec(world, m, port)
      modifies this
      ensures trace == old(trace) + Loop(step, |old(trace)|, rounds).calls
      ensures r == Loop(step, |old(trace)|, rounds).end
    {
      ghost var n0 := |trace|;
      ghost var done: seq<Event> := [];
      r := Go(());
      var k := 0;
      while k < rounds && r.Go?
        invariant k <= rounds
        invariant trace == old(trace) + done
        invariant Loop(step, n0, k) == Round(done, r)
      {
        LoopNext(step, n0, k, done);
        ghost var next := step(|trace|);
        r := NextRound(port, step);
        done := done + next.calls;
        k := k + 1;
      }
      if !r.Go? {
        LoopStops(step, n0, k, rounds);
      }
    }
  }
}
