/**
  Pipes (pipe.c).  A call runs under the pipe lock until it returns or sleeps; each such stretch is
  one step.  There is one reader and one writer, so a wakeup has at most one process to wake.
 */
module Pipe {
  import opened Params

  const PIPESIZE: int := 512

  // ---------------------------------------------------------------- the protocol

  /** Bytes put into and taken from the pipe since it was made, and who sleeps. */
  datatype State = State(sent: seq<int>, got: seq<int>, readopen: bool, writeopen: bool, rAsleep: bool, wAsleep: bool) {
    ghost predicate Flow() {
      got <= sent && |sent| - |got| <= PIPESIZE
    }

    predicate Empty() {
      |sent| == |got|
    }

    predicate Full() {
      |sent| == |got| + PIPESIZE
    }

    /** What holds whenever the lock is free. */
    ghost predicate Safe() {
      Flow() && (rAsleep ==> Empty() && writeopen && readopen) && (wAsleep ==> Full() && readopen && writeopen)
    }
  }

  datatype Outcome = Done | Sleeps | Fails

  function Min(a: int, b: int): int {
    if a < b then a else b
  }

  /** Bytes of rest a writer can store before the pipe is full. */
  function Room(s: State, rest: seq<int>): int {
    Min(PIPESIZE - (|s.sent| - |s.got|), |rest|)
  }

  function WriteOutcome(s: State, rest: seq<int>, killed: bool): Outcome {
    if Room(s, rest) == |rest| then Done else if !s.readopen || killed then Fails else Sleeps
  }

  /** A writer with rest still to write, until it returns or sleeps. */
  function WriteStep(s: State, rest: seq<int>, killed: bool): State
    requires 0 <= Room(s, rest)
  {
    var k := Room(s, rest);
    var t := s.(sent := s.sent + rest[..k], wAsleep := false);
    match WriteOutcome(s, rest, killed)
    case Done => t.(rAsleep := false)
    case Fails => t
    case Sleeps => t.(rAsleep := false, wAsleep := true)
  }

  function ReadOutcome(s: State, killed: bool): Outcome {
    if s.Empty() && s.writeopen then (if killed then Fails else Sleeps) else Done
  }

  function Taken(s: State, n: int): int {
    Min(|s.sent| - |s.got|, if n < 0 then 0 else n)
  }

  /** A reader asking for n bytes, until it returns or sleeps. */
  function ReadStep(s: State, n: int, killed: bool): State
    requires s.Flow()
  {
    var t := s.(rAsleep := false);
    match ReadOutcome(s, killed)
    case Done => t.(got := s.sent[..|s.got| + Taken(s, n)], wAsleep := false)
    case Fails => t
    case Sleeps => t.(rAsleep := true)
  }

  function CloseStep(s: State, writable: bool): State {
    if writable then s.(writeopen := false, rAsleep := false) else s.(readopen := false, wAsleep := false)
  }

  // ---- runs

  datatype Event =
    | Write(rest: seq<int>, wkilled: bool)  // start of a write call, or its return from sleep
    | Read(n: int, rkilled: bool)           // start of a read call, or its return from sleep
    | Close(writable: bool)
    | WakeReader                            // kill() makes a sleeper runnable
    | WakeWriter

  /** A process that sleeps does nothing, and a closed end has no process. */
  ghost predicate Enabled(s: State, e: Event) {
    match e
    case Write(rest, killed) => !s.wAsleep && s.writeopen
    case Read(n, killed) => !s.rAsleep && s.readopen
    case Close(writable) => if writable then !s.wAsleep && s.writeopen else !s.rAsleep && s.readopen
    case WakeReader => s.rAsleep
    case WakeWriter => s.wAsleep
  }

  ghost function Step(s: State, e: Event): State
    requires s.Flow()
  {
    match e
    case Write(rest, killed) => WriteStep(s, rest, killed)
    case Read(n, killed) => ReadStep(s, n, killed)
    case Close(writable) => CloseStep(s, writable)
    case WakeReader => s.(rAsleep := false)
    case WakeWriter => s.(wAsleep := false)
  }

  /** The one step that can leave a reader asleep beside a full pipe: a killed writer gives up. */
  ghost predicate LosesWakeup(s: State, e: Event) {
    e.Write? && e.wkilled && s.rAsleep && |e.rest| > PIPESIZE
  }

  /** A step keeps the protocol safe exactly when it is not that one. */
  lemma StepSafeIff(s: State, e: Event)
    requires s.Safe() && Enabled(s, e)
    ensures Step(s, e).Flow()
    ensures Step(s, e).Safe() <==> !LosesWakeup(s, e)
  {
    match e
    case Write(rest, killed) =>
      var k := Room(s, rest);
      assert s.sent <= s.sent + rest[..k];
    case Read(n, killed) =>
    case Close(writable) =>
    case WakeReader =>
    case WakeWriter =>
  }

  function Start(): State {
    State([], [], true, true, false, false)
  }

  /** A killed writer with more than a pipe of data leaves the sleeping reader beside a full pipe. */
  lemma KilledWriterStrandsReader(s: State, e: Event)
    requires s.Safe() && Enabled(s, e) && LosesWakeup(s, e)
    ensures Step(s, e).rAsleep && Step(s, e).Full() && WriteOutcome(s, e.rest, true) == Fails
  {
  }

  lemma StepFlow(s: State, e: Event)
    requires s.Flow()
    ensures Step(s, e).Flow()
  {
    if e.Write? {
      assert s.sent <= s.sent + e.rest[..Room(s, e.rest)];
    }
  }

  /** Events that can happen one after the other. */
  ghost predicate Possible(es: seq<Event>)
    decreases |es|, 0
  {
    es == [] || (Possible(es[..|es| - 1]) && Enabled(After(es[..|es| - 1]), es[|es| - 1]))
  }

  /** The state after a run from the start; the pipe never overflows and bytes come out as they went in. */
  ghost function After(es: seq<Event>): (s: State)
    requires Possible(es)
    ensures s.Flow()
    decreases |es|, 1
  {
    if es == [] then Start()
    else
      var r, e := After(es[..|es| - 1]), es[|es| - 1];
      StepFlow(r, e);
      Step(r, e)
  }

  /** No step of the run loses a wakeup. */
  ghost predicate Lossless(es: seq<Event>)
    requires Possible(es)
    decreases |es|
  {
    es == [] || (Lossless(es[..|es| - 1]) && !LosesWakeup(After(es[..|es| - 1]), es[|es| - 1]))
  }

  /** Every state of the run is safe. */
  ghost predicate AlwaysSafe(es: seq<Event>)
    requires Possible(es)
    decreases |es|
  {
    After(es).Safe() && (es == [] || AlwaysSafe(es[..|es| - 1]))
  }

  /**
    A run is safe throughout exactly if no killed writer gives up on a sleeping reader; then the two
    never both sleep.
   */
  lemma {:induction false} RunSafeIff(es: seq<Event>)
    requires Possible(es)
    ensures AlwaysSafe(es) <==> Lossless(es)
    ensures Lossless(es) ==> !(After(es).rAsleep && After(es).wAsleep)
    decreases |es|
  {
    hide Step, LosesWakeup, Enabled;
    if es != [] {
      var front, e := es[..|es| - 1], es[|es| - 1];
      RunSafeIff(front);
      if After(front).Safe() { StepSafeIff(After(front), e); }
    }
  }

  /**
    A reader finds the pipe empty and sleeps; a writer of 513 bytes is killed: the reader sleeps
    beside a full pipe.
   */
  lemma StrandedReader() returns (es: seq<Event>)
    ensures Possible(es) && After(es).rAsleep && After(es).Full() && !AlwaysSafe(es)
  {
    var bytes := seq(PIPESIZE + 1, _ => 0);
    es := [Read(1, false), Write(bytes, true)];
    assert es[..1] == [Read(1, false)] && es[..1][..0] == [];
    assert Possible([]) && After([]) == Start();
    assert Possible(es[..1]) && After(es[..1]) == ReadStep(Start(), 1, false);
    assert Possible(es) && After(es) == WriteStep(After(es[..1]), bytes, true);
  }

  /** The bytes a step returns to the reader. */
  ghost function Returned(s: State, e: Event): seq<int>
    requires s.Flow()
  {
    if e.Read? && ReadOutcome(s, e.rkilled) == Done then s.sent[|s.got|..|s.got| + Taken(s, e.n)] else []
  }

  /** The bytes a step accepts from the writer. */
  ghost function Accepted(s: State, e: Event): seq<int>
    requires s.Flow()
  {
    if e.Write? then e.rest[..Room(s, e.rest)] else []
  }

  ghost function AllReturned(es: seq<Event>): seq<int>
    requires Possible(es)
    decreases |es|
  {
    if es == [] then [] else AllReturned(es[..|es| - 1]) + Returned(After(es[..|es| - 1]), es[|es| - 1])
  }

  ghost function AllAccepted(es: seq<Event>): seq<int>
    requires Possible(es)
    decreases |es|
  {
    if es == [] then [] else AllAccepted(es[..|es| - 1]) + Accepted(After(es[..|es| - 1]), es[|es| - 1])
  }

  /** In every run what the reader got is a prefix of what the writer gave, at most a pipe behind. */
  lemma {:induction false} BytesInOrder(es: seq<Event>)
    requires Possible(es)
    ensures After(es).got == AllReturned(es) <= AllAccepted(es) == After(es).sent
    ensures |AllAccepted(es)| - |AllReturned(es)| <= PIPESIZE
    decreases |es|
  {
    hide Step, Returned, Accepted, LosesWakeup, Enabled;
    if es != [] {
      BytesInOrder(es[..|es| - 1]);
      StepBytes(After(es[..|es| - 1]), es[|es| - 1]);
    }
  }

  lemma StepBytes(s: State, e: Event)
    requires s.Flow()
    ensures Step(s, e).got == s.got + Returned(s, e) && Step(s, e).sent == s.sent + Accepted(s, e)
  {
    if e.Read? {
      ReadBytes(s, e.n);
    }
    hide State.Flow;
  }

  lemma ReadBytes(s: State, n: int)
    requires s.Flow()
    ensures 0 <= Taken(s, n) <= |s.sent| - |s.got|
    ensures s.sent[..|s.got| + Taken(s, n)] == s.got + s.sent[|s.got|..|s.got| + Taken(s, n)]
  {
    assert s.sent[..|s.got|] == s.got;
  }

  // ---- what a call gives and takes

  /** A read sleeps or gives up exactly at an empty pipe that may still be written; the state is else untouched. */
  lemma ReadWaitsIff(s: State, n: int, killed: bool)
    requires s.Flow()
    ensures var t := Step(s, Read(n, killed));
      && (ReadOutcome(s, killed) != Done <==> s.sent == s.got && s.writeopen)
      && (ReadOutcome(s, killed) == Sleeps <==> s.sent == s.got && s.writeopen && !killed)
      && (t.rAsleep <==> ReadOutcome(s, killed) == Sleeps)
      && (ReadOutcome(s, killed) != Done ==> t == s.(rAsleep := t.rAsleep))
  {
    assert s.sent == s.got <==> |s.sent| == |s.got|;
  }

  /** Else it returns the next bytes, as many as asked for or all there are, and wakes the writer. */
  lemma ReadReturns(s: State, n: int, killed: bool)
    requires s.Flow() && ReadOutcome(s, killed) == Done
    ensures var t := Step(s, Read(n, killed));
      && t.sent == s.sent && s.got <= t.got <= t.sent && !t.wAsleep && !t.rAsleep
      && t.readopen == s.readopen && t.writeopen == s.writeopen
      && (n <= 0 ==> t.got == s.got)
      && (n >= 0 ==> |t.got| - |s.got| <= n && (|t.got| - |s.got| == n || t.got == t.sent))
      && Returned(s, Read(n, killed)) == t.got[|s.got|..]
  {
    ReadBytes(s, n);
    StepBytes(s, Read(n, killed));
    var t := Step(s, Read(n, killed));
    assert t.got[|s.got|..] == Returned(s, Read(n, killed));
  }

  /** A read for some bytes returns none exactly at the end of the file. */
  lemma EndOfFileIff(s: State, n: int, killed: bool)
    requires s.Flow() && ReadOutcome(s, killed) == Done && n > 0
    ensures Returned(s, Read(n, killed)) == [] <==> s.sent == s.got && !s.writeopen
  {
    ReadWaitsIff(s, n, killed);
    ReadReturns(s, n, killed);
    hide Step, Returned;
    if s.sent == s.got {
      assert Step(s, Read(n, killed)).got == s.got;
    }
  }

  /** ... and then nothing more ever comes. */
  lemma {:induction false} EndOfFileStays(s: State, es: seq<Event>, k: nat)
    requires Possible(es) && k <= |es| && Possible(es[..k]) && After(es[..k]) == s && s.sent == s.got && !s.writeopen
    ensures After(es).sent == After(es).got == s.sent && !After(es).writeopen
    decreases |es|
  {
    if |es| > k {
      var front, e := es[..|es| - 1], es[|es| - 1];
      assert front[..k] == es[..k];
      EndOfFileStays(s, front, k);
    } else {
      assert es[..k] == es;
    }
  }

  /**
    A write stores the bytes in order, all of them or as many as fill the pipe.  With all stored it
    is done and the reader woken; else it gives up if nobody reads or the writer is killed, and
    sleeps after waking the reader if not.
   */
  lemma WriteAccepts(s: State, rest: seq<int>, killed: bool)
    requires s.Flow()
    ensures var t, a := Step(s, Write(rest, killed)), Accepted(s, Write(rest, killed));
      && a <= rest && t.sent == s.sent + a && t.got == s.got
      && t.readopen == s.readopen && t.writeopen == s.writeopen
      && (a == rest || |t.sent| - |t.got| == PIPESIZE)
      && (WriteOutcome(s, rest, killed) == Done <==> a == rest)
      && (WriteOutcome(s, rest, killed) == Fails <==> a != rest && (!s.readopen || killed))
      && (t.wAsleep <==> WriteOutcome(s, rest, killed) == Sleeps)
      && (t.rAsleep <==> s.rAsleep && WriteOutcome(s, rest, killed) == Fails)
  {
    assert Room(s, rest) == |rest| ==> rest[..|rest|] == rest;
  }

  /** A call that sleeps goes on with what it has not stored; when it is done, all of it has been stored. */
  lemma WriteGoesOn(s: State, rest: seq<int>, killed: bool)
    requires s.Flow()
    ensures var a := Accepted(s, Write(rest, killed));
      a + rest[Room(s, rest)..] == rest && (WriteOutcome(s, rest, killed) == Done <==> rest[Room(s, rest)..] == [])
  {
  }

  /** Closing an end wakes the other; nothing in the pipe is lost. */
  lemma CloseKeeps(s: State, writable: bool)
    requires s.Flow()
    ensures var t := Step(s, Close(writable));
      && t.sent == s.sent && t.got == s.got
      && (t.writeopen <==> s.writeopen && !writable) && (t.readopen <==> s.readopen && writable)
      && (t.rAsleep <==> s.rAsleep && !writable) && (t.wAsleep <==> s.wAsleep && writable)
  {
  }

  // ---------------------------------------------------------------- the ring buffer

  /** The 32-bit counters and the ring hold the bytes of s. */
  ghost predicate Rep(data: seq<int>, nread: int, nwrite: int, s: State) {
    && |data| == PIPESIZE && s.Flow()
    && nread == |s.got| % UINT && nwrite == |s.sent| % UINT
    && (forall k :: |s.got| <= k < |s.sent| ==> data[k % PIPESIZE] == s.sent[k])
  }

  /** Counters that wrap still tell full and empty. */
  lemma Counters(data: seq<int>, nread: int, nwrite: int, s: State)
    requires Rep(data, nread, nwrite, s)
    ensures nwrite == (nread + PIPESIZE) % UINT <==> s.Full()
    ensures nread == nwrite <==> s.Empty()
    ensures nwrite % PIPESIZE == |s.sent| % PIPESIZE && nread % PIPESIZE == |s.got| % PIPESIZE
  {
    Wrap(|s.got|, |s.sent| - |s.got|);
    Slot(|s.sent|);
    Slot(|s.got|);
  }

  lemma Wrap(g: int, d: int)
    requires 0 <= g && 0 <= d <= PIPESIZE
    ensures (g + d) % UINT == (g % UINT + PIPESIZE) % UINT <==> d == PIPESIZE
    ensures g % UINT == (g + d) % UINT <==> d == 0
  {
  }

  lemma Slot(n: int)
    requires 0 <= n
    ensures n % UINT % PIPESIZE == n % PIPESIZE
  {
    var q := n / UINT;
    assert n == UINT * q + n % UINT;
    assert n % PIPESIZE == (PIPESIZE * (8388608 * q) + n % UINT) % PIPESIZE;
  }

  lemma Stored(data: seq<int>, nread: int, nwrite: int, s: State, c: int)
    requires Rep(data, nread, nwrite, s) && !s.Full()
    ensures Rep(data[|s.sent| % PIPESIZE := c], nread, (nwrite + 1) % UINT, s.(sent := s.sent + [c]))
  {
    var n := |s.sent|;
    forall k | |s.got| <= k < n ensures k % PIPESIZE != n % PIPESIZE {
      Apart(k, n);
    }
    Next(n);
  }

  lemma Fetched(data: seq<int>, nread: int, nwrite: int, s: State)
    requires Rep(data, nread, nwrite, s) && !s.Empty()
    ensures data[|s.got| % PIPESIZE] == s.sent[|s.got|]
    ensures Rep(data, (nread + 1) % UINT, nwrite, s.(got := s.got + [s.sent[|s.got|]]))
  {
    Next(|s.got|);
    assert s.got + [s.sent[|s.got|]] == s.sent[..|s.got| + 1];
  }

  lemma Apart(k: int, n: int)
    requires 0 <= k < n < k + PIPESIZE
    ensures k % PIPESIZE != n % PIPESIZE
  {
  }

  lemma Next(n: int)
    requires 0 <= n
    ensures (n % UINT + 1) % UINT == (n + 1) % UINT
  {
  }

  /** k bytes of rest are stored, and there are no more or the pipe is full. */
  lemma WriteIs(s: State, rest: seq<int>, k: int, killed: bool, t: State)
    requires s.Flow() && 0 <= k <= |rest| && t == s.(sent := s.sent + rest[..k], wAsleep := false) && t.Flow()
    requires k == |rest| || t.Full()
    ensures Room(s, rest) == k
    ensures k == |rest| ==> WriteOutcome(s, rest, killed) == Done && WriteStep(s, rest, killed) == t.(rAsleep := false)
    ensures k < |rest| && (!s.readopen || killed) ==> WriteOutcome(s, rest, killed) == Fails
    ensures k < |rest| && (!s.readopen || killed) ==> WriteStep(s, rest, killed) == t
    ensures k < |rest| && s.readopen && !killed ==>
      WriteOutcome(s, rest, killed) == Sleeps && WriteStep(s, rest, killed) == t.(rAsleep := false, wAsleep := true)
  {
  }

  lemma RepFlow(data: seq<int>, nread: int, nwrite: int, s: State)
    requires Rep(data, nread, nwrite, s)
    ensures s.Flow()
    ensures forall r, w, x, y :: Rep(data, nread, nwrite, s.(readopen := r, writeopen := w, rAsleep := x, wAsleep := y))
  {
  }

  lemma TakeOne(s: State, i: int)
    requires 0 <= i && |s.got| + i < |s.sent|
    ensures var g := |s.got| + i;
      s.sent[..g] + [s.sent[g]] == s.sent[..g + 1] && s.sent[|s.got|..g] + [s.sent[g]] == s.sent[|s.got|..g + 1]
  {
  }

  class Channel {
    const data: array<int>
    var nread: int
    var nwrite: int
    var readopen: bool
    var writeopen: bool
    ghost var s: State

    ghost predicate Valid()
      reads this, data
    {
      data.Length == PIPESIZE && Rep(data[..], nread, nwrite, s) && readopen == s.readopen && writeopen == s.writeopen
    }

    /** pipealloc(). */
    constructor ()
      ensures Valid() && s == Start() && fresh(data)
    {
      data := new int[PIPESIZE];
      nread, nwrite, readopen, writeopen := 0, 0, true, true;
      s := Start();
    }

    /** pipewrite(), from the lock to its return or sleep, with the first i0 bytes of addr stored before. */
    method Write(addr: seq<int>, i0: int, killed: bool) returns (i: int, out: Outcome)
      requires Valid() && 0 <= i0 <= |addr|
      modifies this, data
      ensures Valid() && old(s.Flow()) && s == WriteStep(old(s), addr[i0..], killed)
      ensures out == WriteOutcome(old(s), addr[i0..], killed) && i == i0 + Room(old(s), addr[i0..])
      ensures i0 <= i <= |addr| && s.sent == old(s.sent) + addr[i0..i] && s.got == old(s.got)
      ensures (out == Done <==> i == |addr|) && (i < |addr| ==> s.Full())
      ensures out == Fails <==> i < |addr| && (!readopen || killed)
      ensures readopen == old(readopen) && writeopen == old(writeopen)
    {
      hide Rep, WriteStep, WriteOutcome, Room;
      i := i0;
      ghost var s0, rest := s, addr[i0..];
      RepFlow(data[..], nread, nwrite, s);
      s := s.(wAsleep := false);
      while i < |addr|
        invariant i0 <= i <= |addr| && Valid() && s == s0.(sent := s0.sent + rest[..i - i0], wAsleep := false)
      {
        Counters(data[..], nread, nwrite, s);
        RepFlow(data[..], nread, nwrite, s);
        if nwrite == (nread + PIPESIZE) % UINT {
          WriteIs(s0, rest, i - i0, killed, s);
          if !readopen || killed {
            return i, Fails;
          }
          s := s.(rAsleep := false, wAsleep := true);
          return i, Sleeps;
        }
        Store(addr[i]);
        assert rest[..i - i0] + [addr[i]] == rest[..i + 1 - i0];
        i := i + 1;
      }
      RepFlow(data[..], nread, nwrite, s);
      WriteIs(s0, rest, i - i0, killed, s);
      s := s.(rAsleep := false);
      out := Done;
    }

    /** One byte into the ring. */
    method Store(c: int)
      requires Valid() && !s.Full()
      modifies this`nwrite, this`s, data
      ensures Valid() && s == old(s).(sent := old(s.sent) + [c])
    {
      hide Rep;
      Counters(data[..], nread, nwrite, s);
      Stored(data[..], nread, nwrite, s, c);
      ghost var d := data[..];
      data[nwrite % PIPESIZE] := c;
      assert data[..] == d[|s.sent| % PIPESIZE := c];
      nwrite := (nwrite + 1) % UINT;
      s := s.(sent := s.sent + [c]);
    }

    /** piperead(), from the lock to its return or sleep. */
    method Read(n: int, killed: bool) returns (got: seq<int>, out: Outcome)
      requires Valid()
      modifies this
      ensures Valid() && old(s.Flow()) && s == ReadStep(old(s), n, killed) && out == ReadOutcome(old(s), killed)
      ensures got == if out == Done then old(s.sent)[|old(s.got)|..|old(s.got)| + Taken(old(s), n)] else []
      ensures s.sent == old(s.sent) && s.got == old(s.got) + got
      ensures |got| == (if n < 0 then 0 else n) || (|got| < n && (out == Done ==> s.Empty()))
      ensures out != Done <==> old(s.Empty()) && writeopen
      ensures out == Sleeps <==> old(s.Empty()) && writeopen && !killed
      ensures readopen == old(readopen) && writeopen == old(writeopen)
    {
      hide Rep;
      got := [];
      ghost var s0 := s;
      RepFlow(data[..], nread, nwrite, s);
      s := s.(rAsleep := false);
      Counters(data[..], nread, nwrite, s);
      if nread == nwrite && writeopen {
        if killed {
          return got, Fails;
        }
        s := s.(rAsleep := true);
        return got, Sleeps;
      }
      got := Copy(n);
      RepFlow(data[..], nread, nwrite, s);
      s := s.(wAsleep := false);
      out := Done;
    }

    /** One byte out of the ring. */
    method Fetch() returns (c: int)
      requires Valid() && !s.Empty()
      modifies this`nread, this`s
      ensures Valid() && old(s.Flow()) && c == old(s.sent)[|old(s.got)|] && s == old(s).(got := old(s.got) + [c])
    {
      hide Rep;
      RepFlow(data[..], nread, nwrite, s);
      Counters(data[..], nread, nwrite, s);
      Fetched(data[..], nread, nwrite, s);
      c := data[nread % PIPESIZE];
      s := s.(got := s.got + [s.sent[|s.got|]]);
      nread := (nread + 1) % UINT;
    }

    /** The copy loop of piperead(). */
    method Copy(n: int) returns (got: seq<int>)
      requires Valid()
      modifies this`nread, this`s
      ensures Valid() && old(s.Flow()) && s == old(s).(got := old(s.sent)[..|old(s.got)| + Taken(old(s), n)])
      ensures got == old(s.sent)[|old(s.got)|..|old(s.got)| + Taken(old(s), n)]
    {
      hide Rep;
      ghost var s0 := s;
      RepFlow(data[..], nread, nwrite, s);
      assert s0.got == s0.sent[..|s0.got|];
      got := [];
      var i := 0;
      while i < n
        invariant 0 <= i && (i <= n || i == 0) && Valid() && i == |got| && |s0.got| + i <= |s0.sent|
        invariant s == s0.(got := s0.sent[..|s0.got| + i]) && got == s0.sent[|s0.got|..|s0.got| + i]
      {
        Counters(data[..], nread, nwrite, s);
        if nread == nwrite {
          break;
        }
        TakeOne(s0, i);
        var c := Fetch();
        got := got + [c];
        i := i + 1;
      }
    }

    /** pipeclose(): true when both ends are closed and the pipe is freed. */
    method Close(writable: bool) returns (freed: bool)
      requires Valid()
      modifies this
      ensures Valid() && s == CloseStep(old(s), writable) && (freed <==> !s.readopen && !s.writeopen)
      ensures writeopen == (old(writeopen) && !writable) && readopen == (old(readopen) && writable)
      ensures s.sent == old(s.sent) && s.got == old(s.got)
    {
      if writable {
        writeopen := false;
        s := s.(writeopen := false, rAsleep := false);
      } else {
        readopen := false;
        s := s.(readopen := false, wAsleep := false);
      }
      freed := !readopen && !writeopen;
    }
  }
}
