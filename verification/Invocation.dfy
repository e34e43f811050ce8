/** The bounded capture loop of src/freeweight/external/invocation.py: two pipes, whichever is ready, until both
    close, the deadline passes or the cap cuts the capture short. */
module Invocation {
  import opened Results

  type Bytes = seq<bv8>

  datatype Stream = Stdout | Stderr

  const READ_SIZE := 65536

  /** What one raw read may return: at least a byte, at most what was asked for. */
  type ChunkSize = n: nat | 1 <= n <= READ_SIZE witness 1

  /** One wakeup before the deadline: which pipes are readable, in which order, how much each read yields. */
  datatype Wakeup = Wakeup(stdout: Option<ChunkSize>, stderr: Option<ChunkSize>, stderrFirst: bool)

  datatype Ready = Ready(name: Stream, size: ChunkSize)

  /** What the process writes to each pipe before closing it. */
  datatype Written = Written(stdout: Bytes, stderr: Bytes) {
    function On(name: Stream): Bytes { if name == Stdout then stdout else stderr }
    function Total(): nat { |stdout| + |stderr| }
  }

  datatype InvocationResult = InvocationResult(stdout: Bytes, stderr: Bytes, timedOut: bool, truncated: bool)

  /** One pipe's entries in captured and sizes, whether it is still registered, and how far it was read. */
  datatype Pipe = Pipe(chunks: seq<Bytes>, size: nat, at: nat, open: bool)

  /** Both pipes' entries, by name. */
  datatype Pipes = Pipes(stdout: Pipe, stderr: Pipe) {
    function On(name: Stream): Pipe { if name == Stdout then stdout else stderr }
    function With(name: Stream, p: Pipe): Pipes { if name == Stdout then Pipes(p, stderr) else Pipes(stdout, p) }
    function Size(): nat { stdout.size + stderr.size }
  }

  /** select reports registered pipes only. */
  function Select(w: Wakeup, pipes: Pipes): seq<Ready> {
    var out := if w.stdout.Some? && pipes.stdout.open then [Ready(Stdout, w.stdout.value)] else [];
    var err := if w.stderr.Some? && pipes.stderr.open then [Ready(Stderr, w.stderr.value)] else [];
    if w.stderrFirst then err + out else out + err
  }

  /** The read at a position: empty only at the end. */
  function Read(written: Bytes, at: nat, size: ChunkSize): Bytes
    requires at <= |written|
  {
    if at + size <= |written| then written[at..at + size] else written[at..]
  }

  /** chunk[:room] */
  function Kept(chunk: Bytes, room: int): Bytes { if 0 <= room < |chunk| then chunk[..room] else chunk }

  /** b"".join */
  function Join(chunks: seq<Bytes>): Bytes {
    if chunks == [] then [] else Join(chunks[..|chunks| - 1]) + chunks[|chunks| - 1]
  }

  lemma JoinSnoc(chunks: seq<Bytes>, chunk: Bytes)
    ensures Join(chunks + [chunk]) == Join(chunks) + chunk
  {
    assert (chunks + [chunk])[..|chunks|] == chunks;
  }

  function NonNegative(cap: int): nat { if cap < 0 then 0 else cap }

  // ---------------------------------------------------------------------------------------
  // One pipe, by the sizes of its reads
  // ---------------------------------------------------------------------------------------

  function Sum(sizes: seq<nat>): nat { if sizes == [] then 0 else Sum(sizes[..|sizes| - 1]) + sizes[|sizes| - 1] }

  /** The reads a schedule gives one pipe. */
  function Sizes(name: Stream, wakeups: seq<Wakeup>): seq<nat> {
    if wakeups == [] then []
    else
      var front, last := Sizes(name, wakeups[..|wakeups| - 1]), wakeups[|wakeups| - 1];
      var size := if name == Stdout then last.stdout else last.stderr;
      if size.Some? then front + [size.value] else front
  }

  /** How many bytes these reads yield. */
  function Delivered(bytes: Bytes, sizes: seq<nat>): nat { if Sum(sizes) <= |bytes| then Sum(sizes) else |bytes| }

  /** All bytes are read and one more read finds the end. */
  predicate EndSeen(bytes: Bytes, sizes: seq<nat>) { sizes != [] && Sum(sizes[..|sizes| - 1]) >= |bytes| }

  lemma OneMoreSize(sizes: seq<nat>, size: nat)
    ensures Sum(sizes + [size]) == Sum(sizes) + size
  {
    assert (sizes + [size])[..|sizes|] == sizes;
  }

  lemma OneMoreRead(bytes: Bytes, sizes: seq<nat>, size: nat)
    ensures EndSeen(bytes, sizes + [size]) <==> Sum(sizes) >= |bytes|
    ensures EndSeen(bytes, sizes) ==> Sum(sizes) >= |bytes|
  {
    assert (sizes + [size])[..|sizes|] == sizes;
  }

  // ---------------------------------------------------------------------------------------
  // Both pipes, byte by byte
  // ---------------------------------------------------------------------------------------

  /** A byte as it arrives. */
  datatype Byte = Byte(name: Stream, value: bv8)

  ghost function Tagged(name: Stream, bytes: Bytes): (log: seq<Byte>)
    ensures |log| == |bytes| && forall i :: 0 <= i < |bytes| ==> log[i] == Byte(name, bytes[i])
  {
    seq(|bytes|, i requires 0 <= i < |bytes| => Byte(name, bytes[i]))
  }

  /** One pipe's bytes among those that arrived. */
  ghost function Of(name: Stream, log: seq<Byte>): Bytes {
    if log == [] then []
    else
      var front, last := Of(name, log[..|log| - 1]), log[|log| - 1];
      if last.name == name then front + [last.value] else front
  }

  /** The reads of a schedule, one after the other. */
  ghost function Reads(wakeups: seq<Wakeup>): seq<Ready> {
    if wakeups == [] then [] else Reads(wakeups[..|wakeups| - 1]) + BothReady(wakeups[|wakeups| - 1])
  }

  ghost function BothReady(w: Wakeup): seq<Ready> {
    var out := if w.stdout.Some? then [Ready(Stdout, w.stdout.value)] else [];
    var err := if w.stderr.Some? then [Ready(Stderr, w.stderr.value)] else [];
    if w.stderrFirst then err + out else out + err
  }

  /** Up to so many bytes from a position on. */
  ghost function Next(bytes: Bytes, at: nat, size: nat): Bytes {
    if at >= |bytes| then [] else if size < |bytes| - at then bytes[at..at + size] else bytes[at..]
  }

  /** What the reads yield, were there no cap: each continues its own pipe. */
  ghost function Arrivals(written: Written, asked: seq<Ready>): seq<Byte> {
    if asked == [] then []
    else
      var front, last := Arrivals(written, asked[..|asked| - 1]), asked[|asked| - 1];
      front + Tagged(last.name, Next(written.On(last.name), |Of(last.name, front)|, last.size))
  }

  /** The first bytes to arrive, as many as the cap admits. */
  ghost function Admitted(log: seq<Byte>, cap: int): seq<Byte> {
    if |log| <= NonNegative(cap) then log else log[..NonNegative(cap)]
  }

  lemma OfOneMore(name: Stream, log: seq<Byte>, b: Byte)
    ensures Of(name, log + [b]) == if b.name == name then Of(name, log) + [b.value] else Of(name, log)
  {
    assert (log + [b])[..|log|] == log;
  }

  lemma {:induction false} OfAppend(name: Stream, log: seq<Byte>, other: Stream, bytes: Bytes)
    ensures Of(name, log + Tagged(other, bytes)) == if other == name then Of(name, log) + bytes else Of(name, log)
  {
    hide Of;
    if bytes == [] {
      assert log + Tagged(other, bytes) == log;
    } else {
      var n := |bytes| - 1;
      OfAppend(name, log, other, bytes[..n]);
      OfOneMore(name, log + Tagged(other, bytes[..n]), Byte(other, bytes[n]));
      assert log + Tagged(other, bytes) == log + Tagged(other, bytes[..n]) + [Byte(other, bytes[n])];
      assert bytes == bytes[..n] + [bytes[n]];
    }
  }

  lemma {:induction false} OfBoth(log: seq<Byte>)
    ensures |Of(Stdout, log)| + |Of(Stderr, log)| == |log|
  {
    if log != [] {
      OfBoth(log[..|log| - 1]);
    }
  }

  lemma {:induction false} OfPrefix(name: Stream, log: seq<Byte>, n: nat)
    requires n <= |log|
    ensures Of(name, log[..n]) <= Of(name, log)
  {
    if n == |log| {
      assert log[..n] == log;
    } else {
      assert log[..|log| - 1][..n] == log[..n];
      OfPrefix(name, log[..|log| - 1], n);
    }
  }

  lemma ArrivalsStep(written: Written, asked: seq<Ready>, r: Ready)
    ensures var front := Arrivals(written, asked);
            Arrivals(written, asked + [r]) ==
            front + Tagged(r.name, Next(written.On(r.name), |Of(r.name, front)|, r.size))
  {
    assert (asked + [r])[..|asked|] == asked;
  }

  lemma {:induction false} ArrivalsGrow(written: Written, asked: seq<Ready>, more: seq<Ready>)
    ensures Arrivals(written, asked) <= Arrivals(written, asked + more)
  {
    hide Of, Next;
    if more == [] {
      assert asked + more == asked;
    } else {
      var n := |more| - 1;
      ArrivalsGrow(written, asked, more[..n]);
      assert asked + more == asked + more[..n] + [more[n]];
      ArrivalsStep(written, asked + more[..n], more[n]);
    }
  }

  /** One pipe's reads among all. */
  ghost function SizesIn(name: Stream, asked: seq<Ready>): seq<nat> {
    if asked == [] then []
    else
      var front, last := SizesIn(name, asked[..|asked| - 1]), asked[|asked| - 1];
      if last.name == name then front + [last.size] else front
  }

  lemma SizesStep(name: Stream, asked: seq<Ready>, r: Ready)
    ensures SizesIn(name, asked + [r]) ==
            if r.name == name then SizesIn(name, asked) + [r.size] else SizesIn(name, asked)
  {
    assert (asked + [r])[..|asked|] == asked;
  }

  lemma BothReadySizes(name: Stream, asked: seq<Ready>, w: Wakeup)
    ensures SizesIn(name, asked + BothReady(w)) ==
            var size := if name == Stdout then w.stdout else w.stderr;
            if size.Some? then SizesIn(name, asked) + [size.value] else SizesIn(name, asked)
  {
    hide SizesIn;
    var ready := BothReady(w);
    if |ready| == 0 {
      assert asked + ready == asked;
    } else if |ready| == 1 {
      SizesStep(name, asked, ready[0]);
      assert asked + ready == asked + [ready[0]];
    } else {
      SizesStep(name, asked, ready[0]);
      SizesStep(name, asked + [ready[0]], ready[1]);
      assert asked + ready == asked + [ready[0]] + [ready[1]];
    }
  }

  lemma {:induction false} SizesOfReads(name: Stream, wakeups: seq<Wakeup>)
    ensures SizesIn(name, Reads(wakeups)) == Sizes(name, wakeups)
  {
    hide SizesIn, BothReady;
    if wakeups == [] {
      assert SizesIn(name, []) == [] by { NoSizes(name); }
    } else {
      var n := |wakeups| - 1;
      SizesOfReads(name, wakeups[..n]);
      BothReadySizes(name, Reads(wakeups[..n]), wakeups[n]);
    }
  }

  lemma NoSizes(name: Stream)
    ensures SizesIn(name, []) == []
  {
  }

  lemma DeliveredStep(bytes: Bytes, sizes: seq<nat>, size: nat)
    ensures bytes[..Delivered(bytes, sizes)] + Next(bytes, Delivered(bytes, sizes), size)
         == bytes[..Delivered(bytes, sizes + [size])]
  {
    OneMoreSize(sizes, size);
    hide Sum;
  }

  /** Of each pipe there arrive the first bytes written, as many as its reads yield. */
  lemma {:induction false} ArrivalsMean(written: Written, asked: seq<Ready>, name: Stream)
    ensures var bytes := written.On(name);
            Of(name, Arrivals(written, asked)) == bytes[..Delivered(bytes, SizesIn(name, asked))]
  {
    hide Of, Next, Sum, SizesIn;
    if asked == [] {
      NothingArrives(written, name);
    } else {
      var n, bytes := |asked| - 1, written.On(name);
      var front, r := asked[..n], asked[n];
      assert asked == front + [r];
      ArrivalsMean(written, front, name);
      ArrivalsStep(written, front, r);
      SizesStep(name, front, r);
      var log := Arrivals(written, front);
      OfAppend(name, log, r.name, Next(written.On(r.name), |Of(r.name, log)|, r.size));
      hide Arrivals;
      if r.name == name {
        DeliveredStep(bytes, SizesIn(name, front), r.size);
      }
    }
  }

  lemma NothingAfter(bytes: Bytes, at: nat, size: nat)
    ensures at >= |bytes| ==> Next(bytes, at, size) == []
  {
  }

  lemma NothingArrives(written: Written, name: Stream)
    ensures Of(name, Arrivals(written, [])) == [] && SizesIn(name, []) == [] && Sum([]) == 0
  {
  }

  // ---------------------------------------------------------------------------------------
  // The capture is what the cap admits of what arrives
  // ---------------------------------------------------------------------------------------

  /** A pipe's entries after these reads. */
  ghost predicate Has(p: Pipe, written: Written, cap: int, asked: seq<Ready>, name: Stream) {
    && Holds(p, Of(name, Admitted(Arrivals(written, asked), cap)))
    && p.at == |Of(name, Arrivals(written, asked))| <= |written.On(name)|
    && (p.open <==> !EndSeen(written.On(name), SizesIn(name, asked)))
  }

  ghost predicate Holds(p: Pipe, capture: Bytes) { Join(p.chunks) == capture && p.size == |capture| }

  ghost predicate Captured(written: Written, cap: int, pipes: Pipes, asked: seq<Ready>, truncated: bool) {
    && Has(pipes.stdout, written, cap, asked, Stdout)
    && Has(pipes.stderr, written, cap, asked, Stderr)
    && (truncated <==> |Arrivals(written, asked)| > NonNegative(cap))
  }

  /** What is left of the cap is what the bytes that arrived left of it. */
  lemma RoomLeft(written: Written, cap: int, pipes: Pipes, asked: seq<Ready>, truncated: bool)
    requires Captured(written, cap, pipes, asked, truncated)
    ensures var arrived, room := |Arrivals(written, asked)|, cap - pipes.Size();
            (room <= 0 <==> arrived >= NonNegative(cap)) && (room > 0 ==> room == NonNegative(cap) - arrived)
  {
    OfBoth(Admitted(Arrivals(written, asked), cap));
    hide Of, Join, EndSeen, SizesIn, Arrivals;
  }

  lemma NoRoom(log: seq<Byte>, name: Stream, chunk: Bytes, cap: int)
    requires |log| >= NonNegative(cap)
    ensures Admitted(log + Tagged(name, chunk), cap) == Admitted(log, cap)
  {
  }

  lemma SomeRoom(log: seq<Byte>, name: Stream, chunk: Bytes, cap: int)
    requires |log| < NonNegative(cap)
    ensures Admitted(log, cap) == log
    ensures Admitted(log + Tagged(name, chunk), cap) == log + Tagged(name, Kept(chunk, cap - |log|))
  {
  }

  lemma ReadIsNext(bytes: Bytes, at: nat, size: ChunkSize)
    requires at <= |bytes|
    ensures var chunk := Read(bytes, at, size);
            chunk == Next(bytes, at, size) && at + |chunk| <= |bytes| && (chunk == [] <==> at == |bytes|)
  {
  }

  /** A read of a pipe at its end unregisters it; any other leaves it registered. */
  lemma OpenStep(written: Written, asked: seq<Ready>, r: Ready)
    ensures var bytes := written.On(r.name);
            && |Of(r.name, Arrivals(written, asked))| <= |bytes|
            && (EndSeen(bytes, SizesIn(r.name, asked + [r])) <==> |Of(r.name, Arrivals(written, asked))| == |bytes|)
            && (EndSeen(bytes, SizesIn(r.name, asked)) ==> EndSeen(bytes, SizesIn(r.name, asked + [r])))
  {
    ArrivalsMean(written, asked, r.name);
    SizesStep(r.name, asked, r);
    hide Of, Arrivals, SizesIn, Sum, EndSeen;
    OneMoreRead(written.On(r.name), SizesIn(r.name, asked), r.size);
  }

  lemma OtherPipe(p: Pipe, written: Written, cap: int, asked: seq<Ready>, r: Ready, name: Stream)
    requires Has(p, written, cap, asked, name) && r.name != name
    ensures Has(p, written, cap, asked + [r], name)
  {
    var log := Arrivals(written, asked);
    var chunk := Next(written.On(r.name), |Of(r.name, log)|, r.size);
    ArrivalsStep(written, asked, r);
    SizesStep(name, asked, r);
    OfAppend(name, log, r.name, chunk);
    hide Of, Arrivals, SizesIn, Next, EndSeen, Join;
    if |log| >= NonNegative(cap) {
      NoRoom(log, r.name, chunk, cap);
    } else {
      SomeRoom(log, r.name, chunk, cap);
      OfAppend(name, log, r.name, Kept(chunk, cap - |log|));
    }
  }

  /** What one read makes of its pipe's entries. */
  function AfterRead(p: Pipe, chunk: Bytes, room: int): Pipe {
    if chunk == [] then p.(open := false)
    else if room <= 0 then p.(at := p.at + |chunk|)
    else Pipe(p.chunks + [Kept(chunk, room)], p.size + |Kept(chunk, room)|, p.at + |chunk|, true)
  }

  lemma AdmittedOf(log: seq<Byte>, name: Stream, chunk: Bytes, cap: int, room: int)
    requires (room <= 0 <==> |log| >= NonNegative(cap)) && (room > 0 ==> room == NonNegative(cap) - |log|)
    ensures Of(name, Admitted(log + Tagged(name, chunk), cap)) ==
            if room <= 0 then Of(name, Admitted(log, cap)) else Of(name, Admitted(log, cap)) + Kept(chunk, room)
    ensures chunk == [] ==> Kept(chunk, room) == []
  {
    if room <= 0 {
      NoRoom(log, name, chunk, cap);
    } else {
      SomeRoom(log, name, chunk, cap);
      OfAppend(name, log, name, Kept(chunk, room));
    }
    hide Of, Admitted;
  }

  /** What one read adds to its pipe's capture, position and registration. */
  lemma ReadAdds(written: Written, cap: int, asked: seq<Ready>, r: Ready, room: int)
    requires var arrived := |Arrivals(written, asked)|;
             (room <= 0 <==> arrived >= NonNegative(cap)) && (room > 0 ==> room == NonNegative(cap) - arrived)
    ensures var bytes, capture := written.On(r.name), Of(r.name, Admitted(Arrivals(written, asked), cap));
            var at := |Of(r.name, Arrivals(written, asked))|;
            && at <= |bytes|
            && var chunk := Read(bytes, at, r.size);
               && at + |chunk| <= |bytes|
               && |Of(r.name, Arrivals(written, asked + [r]))| == at + |chunk|
               && Of(r.name, Admitted(Arrivals(written, asked + [r]), cap)) ==
                  (if room <= 0 then capture else capture + Kept(chunk, room))
               && (EndSeen(bytes, SizesIn(r.name, asked + [r])) <==> chunk == [])
               && (EndSeen(bytes, SizesIn(r.name, asked)) ==> chunk == [])
               && (chunk == [] ==> Kept(chunk, room) == [])
  {
    OpenStep(written, asked, r);
    var log, bytes := Arrivals(written, asked), written.On(r.name);
    ReadIsNext(bytes, |Of(r.name, log)|, r.size);
    ArrivalsStep(written, asked, r);
    hide Arrivals, EndSeen, SizesIn, Of, Next, Read, Kept, Admitted;
    var chunk := Read(bytes, |Of(r.name, log)|, r.size);
    OfAppend(r.name, log, r.name, chunk);
    AdmittedOf(log, r.name, chunk, cap, room);
  }

  lemma ThisPipe(p: Pipe, written: Written, cap: int, asked: seq<Ready>, r: Ready, room: int)
    requires Has(p, written, cap, asked, r.name) && p.open
    requires var arrived := |Arrivals(written, asked)|;
             (room <= 0 <==> arrived >= NonNegative(cap)) && (room > 0 ==> room == NonNegative(cap) - arrived)
    ensures Has(AfterRead(p, Read(written.On(r.name), p.at, r.size), room), written, cap, asked + [r], r.name)
  {
    ReadAdds(written, cap, asked, r, room);
    var chunk := Read(written.On(r.name), p.at, r.size);
    HoldsMore(p, Of(r.name, Admitted(Arrivals(written, asked), cap)), chunk, room);
    hide Arrivals, EndSeen, SizesIn, Of, Read, Kept, Admitted, Holds;
  }

  lemma HoldsMore(p: Pipe, capture: Bytes, chunk: Bytes, room: int)
    requires Holds(p, capture) && (chunk == [] ==> Kept(chunk, room) == [])
    ensures Holds(AfterRead(p, chunk, room), if chunk == [] || room <= 0 then capture else capture + Kept(chunk, room))
    ensures chunk == [] ==> capture + Kept(chunk, room) == capture
  {
    hide Join, Kept;
    JoinSnoc(p.chunks, Kept(chunk, room));
  }

  lemma NothingTagged(log: seq<Byte>, name: Stream)
    ensures log + Tagged(name, []) == log
  {
  }

  /** The cap is exceeded by this read, or was before. */
  lemma ExceededStep(written: Written, cap: int, asked: seq<Ready>, r: Ready, at: nat, room: int)
    requires at == |Of(r.name, Arrivals(written, asked))| <= |written.On(r.name)|
    requires var arrived := |Arrivals(written, asked)|;
             (room <= 0 <==> arrived >= NonNegative(cap)) && (room > 0 ==> room == NonNegative(cap) - arrived)
    ensures var chunk := Read(written.On(r.name), at, r.size);
            |Arrivals(written, asked + [r])| > NonNegative(cap) <==>
            |Arrivals(written, asked)| > NonNegative(cap) || (chunk != [] && (room <= 0 || |Kept(chunk, room)| < |chunk|))
  {
    ArrivalsStep(written, asked, r);
    ReadIsNext(written.On(r.name), at, r.size);
    hide Arrivals, Of, Read, Next;
  }

  /** One read keeps the books, whatever pipe it reads and whatever room there is. */
  lemma ReadKeeps(written: Written, cap: int, pipes: Pipes, asked: seq<Ready>, truncated: bool, r: Ready)
    requires Captured(written, cap, pipes, asked, truncated) && pipes.On(r.name).open
    ensures var p, room := pipes.On(r.name), cap - pipes.Size();
            && p.at <= |written.On(r.name)|
            && var chunk := Read(written.On(r.name), p.at, r.size);
               Captured(written, cap, pipes.With(r.name, AfterRead(p, chunk, room)), asked + [r],
                        truncated || (chunk != [] && (room <= 0 || |Kept(chunk, room)| < |chunk|)))
  {
    hide *;
    var p, room := pipes.On(r.name), cap - pipes.Size();
    var other := Other(r.name);
    RoomLeft(written, cap, pipes, asked, truncated);
    EachHas(written, cap, pipes, asked, truncated, r.name);
    EachHas(written, cap, pipes, asked, truncated, other);
    Position(p, written, cap, asked, r.name);
    OtherIs(pipes, r.name, AfterRead(p, Read(written.On(r.name), p.at, r.size), room));
    ThisPipe(p, written, cap, asked, r, room);
    OtherPipe(pipes.On(other), written, cap, asked, r, other);
    ExceededStep(written, cap, asked, r, p.at, room);
    Exceeds(written, cap, pipes, asked, truncated);
    BothHave(written, cap, pipes.With(r.name, AfterRead(p, Read(written.On(r.name), p.at, r.size), room)), asked + [r],
             |Arrivals(written, asked + [r])| > NonNegative(cap), r.name, other);
  }

  function Other(name: Stream): Stream { if name == Stdout then Stderr else Stdout }

  lemma OtherIs(pipes: Pipes, name: Stream, p: Pipe)
    ensures Other(name) != name
    ensures pipes.With(name, p).On(name) == p && pipes.With(name, p).On(Other(name)) == pipes.On(Other(name))
  {
  }

  lemma EachHas(written: Written, cap: int, pipes: Pipes, asked: seq<Ready>, truncated: bool, name: Stream)
    requires Captured(written, cap, pipes, asked, truncated)
    ensures Has(pipes.On(name), written, cap, asked, name)
  {
    hide Has, Arrivals;
  }

  lemma Exceeds(written: Written, cap: int, pipes: Pipes, asked: seq<Ready>, truncated: bool)
    requires Captured(written, cap, pipes, asked, truncated)
    ensures truncated <==> |Arrivals(written, asked)| > NonNegative(cap)
  {
    hide Has, Arrivals;
  }

  lemma BothHave(written: Written, cap: int, pipes: Pipes, asked: seq<Ready>, truncated: bool, a: Stream, b: Stream)
    requires a != b && Has(pipes.On(a), written, cap, asked, a) && Has(pipes.On(b), written, cap, asked, b)
    requires truncated <==> |Arrivals(written, asked)| > NonNegative(cap)
    ensures Captured(written, cap, pipes, asked, truncated)
  {
    hide Has, Arrivals;
  }

  lemma Position(p: Pipe, written: Written, cap: int, asked: seq<Ready>, name: Stream)
    requires Has(p, written, cap, asked, name)
    ensures p.at == |Of(name, Arrivals(written, asked))| <= |written.On(name)|
  {
    hide Arrivals, EndSeen, SizesIn, Of, Admitted, Holds;
  }

  lemma CaptureStarts(written: Written, cap: int)
    ensures Captured(written, cap, Pipes(Pipe([], 0, 0, true), Pipe([], 0, 0, true)), [], false)
  {
  }

  /** A pipe whose end was seen yields nothing and stays at its end. */
  lemma SkippedRead(written: Written, asked: seq<Ready>, r: Ready)
    requires EndSeen(written.On(r.name), SizesIn(r.name, asked))
    ensures Arrivals(written, asked + [r]) == Arrivals(written, asked)
    ensures EndSeen(written.On(r.name), SizesIn(r.name, asked + [r]))
  {
    OpenStep(written, asked, r);
    ArrivalsStep(written, asked, r);
    hide Of, Arrivals, SizesIn, Sum;
    var bytes, log := written.On(r.name), Arrivals(written, asked);
    OneMoreRead(bytes, SizesIn(r.name, asked), r.size);
    ArrivalsMean(written, asked, r.name);
    NothingAfter(bytes, |Of(r.name, log)|, r.size);
    NothingTagged(log, r.name);
  }

  // ---------------------------------------------------------------------------------------
  // Reads that are not made
  // ---------------------------------------------------------------------------------------

  /** Schedules that yield the same bytes and see the same ends. */
  ghost predicate Alike(written: Written, a: seq<Ready>, b: seq<Ready>) {
    && Arrivals(written, a) == Arrivals(written, b)
    && (EndSeen(written.stdout, SizesIn(Stdout, a)) <==> EndSeen(written.stdout, SizesIn(Stdout, b)))
    && (EndSeen(written.stderr, SizesIn(Stderr, a)) <==> EndSeen(written.stderr, SizesIn(Stderr, b)))
  }

  lemma SkipLast(written: Written, asked: seq<Ready>, r: Ready)
    requires EndSeen(written.On(r.name), SizesIn(r.name, asked))
    ensures Alike(written, asked, asked + [r])
  {
    SkippedRead(written, asked, r);
    SizesStep(Stdout, asked, r);
    SizesStep(Stderr, asked, r);
    hide Arrivals, SizesIn, EndSeen;
  }

  lemma SameStep(written: Written, a: seq<Ready>, b: seq<Ready>, r: Ready)
    requires Alike(written, a, b) && SizesIn(r.name, a) == SizesIn(r.name, b)
    ensures Alike(written, a + [r], b + [r])
  {
    ArrivalsStep(written, a, r);
    ArrivalsStep(written, b, r);
    SizesStep(Stdout, a, r);
    SizesStep(Stderr, a, r);
    SizesStep(Stdout, b, r);
    SizesStep(Stderr, b, r);
    hide Arrivals, SizesIn, EndSeen, Of, Next;
  }

  lemma SkipFirst(written: Written, asked: seq<Ready>, r: Ready, next: Ready)
    requires EndSeen(written.On(r.name), SizesIn(r.name, asked)) && r.name != next.name
    ensures Alike(written, asked + [next], asked + [r] + [next])
  {
    SkipLast(written, asked, r);
    SizesStep(next.name, asked, r);
    hide Arrivals, SizesIn, EndSeen, Alike;
    SameStep(written, asked, asked + [r], next);
  }

  lemma Opened(written: Written, cap: int, pipes: Pipes, done: seq<Ready>)
    requires Captured(written, cap, pipes, done, false)
    ensures pipes.stdout.open <==> !EndSeen(written.stdout, SizesIn(Stdout, done))
    ensures pipes.stderr.open <==> !EndSeen(written.stderr, SizesIn(Stderr, done))
  {
    hide Of, Arrivals, SizesIn, EndSeen, Join;
  }

  /** select's answer for two reads, by what is registered. */
  lemma TwoAlike(written: Written, asked: seq<Ready>, a: Ready, b: Ready, aOpen: bool, bOpen: bool)
    requires a.name != b.name
    requires !aOpen ==> EndSeen(written.On(a.name), SizesIn(a.name, asked))
    requires !bOpen ==> EndSeen(written.On(b.name), SizesIn(b.name, asked))
    ensures Alike(written, asked + (if aOpen then [a] else []) + (if bOpen then [b] else []), asked + [a] + [b])
  {
    SizesStep(b.name, asked, a);
    hide SizesIn, EndSeen, Alike;
    if aOpen && bOpen {
      AlikeSelf(written, asked + [a] + [b]);
    } else if aOpen {
      assert asked + [a] + [] == asked + [a];
      SkipLast(written, asked + [a], b);
    } else if bOpen {
      assert asked + [] + [b] == asked + [b];
      SkipFirst(written, asked, a, b);
    } else {
      assert asked + [] + [] == asked;
      SkipLast(written, asked, b);
      SkipFirst(written, asked, a, b);
      AlikeThrough(written, asked, asked + [b], asked + [a] + [b]);
    }
  }

  lemma OneAlike(written: Written, asked: seq<Ready>, a: Ready, open: bool)
    requires !open ==> EndSeen(written.On(a.name), SizesIn(a.name, asked))
    ensures Alike(written, asked + (if open then [a] else []), asked + [a])
  {
    hide SizesIn, EndSeen, Alike;
    if open {
      AlikeSelf(written, asked + [a]);
    } else {
      assert asked + [] == asked;
      SkipLast(written, asked, a);
    }
  }

  /** The pipes select leaves out are at their end. */
  lemma SelectAlike(written: Written, cap: int, pipes: Pipes, asked: seq<Ready>, w: Wakeup)
    requires Captured(written, cap, pipes, asked, false)
    ensures Alike(written, asked + Select(w, pipes), asked + BothReady(w))
  {
    Opened(written, cap, pipes, asked);
    hide Captured, SizesIn, EndSeen, Alike;
    if w.stdout.Some? && w.stderr.Some? {
      var out, err := Ready(Stdout, w.stdout.value), Ready(Stderr, w.stderr.value);
      if w.stderrFirst {
        TwoAlike(written, asked, err, out, pipes.stderr.open, pipes.stdout.open);
        Associates(asked, if pipes.stderr.open then [err] else [], if pipes.stdout.open then [out] else []);
        Associates(asked, [err], [out]);
      } else {
        TwoAlike(written, asked, out, err, pipes.stdout.open, pipes.stderr.open);
        Associates(asked, if pipes.stdout.open then [out] else [], if pipes.stderr.open then [err] else []);
        Associates(asked, [out], [err]);
      }
    } else if w.stdout.Some? {
      OneAlike(written, asked, Ready(Stdout, w.stdout.value), pipes.stdout.open);
      NothingBeside(Select(w, pipes), w, pipes);
    } else if w.stderr.Some? {
      OneAlike(written, asked, Ready(Stderr, w.stderr.value), pipes.stderr.open);
      NothingBeside(Select(w, pipes), w, pipes);
    } else {
      AlikeSelf(written, asked + BothReady(w));
      NothingBeside(Select(w, pipes), w, pipes);
    }
  }

  lemma Associates(a: seq<Ready>, b: seq<Ready>, c: seq<Ready>)
    ensures a + (b + c) == a + b + c
  {
  }

  lemma NothingBeside(ready: seq<Ready>, w: Wakeup, pipes: Pipes)
    requires ready == Select(w, pipes) && (w.stdout.None? || w.stderr.None?)
    ensures w.stdout.None? && w.stderr.None? ==> ready == BothReady(w) == []
    ensures w.stdout.Some? ==>
              && BothReady(w) == [Ready(Stdout, w.stdout.value)]
              && ready == if pipes.stdout.open then BothReady(w) else []
    ensures w.stderr.Some? ==>
              && BothReady(w) == [Ready(Stderr, w.stderr.value)]
              && ready == if pipes.stderr.open then BothReady(w) else []
  {
  }

  lemma AlikeSelf(written: Written, a: seq<Ready>)
    ensures Alike(written, a, a)
  {
  }

  lemma AlikeThrough(written: Written, a: seq<Ready>, b: seq<Ready>, c: seq<Ready>)
    requires Alike(written, a, b) && Alike(written, b, c)
    ensures Alike(written, a, c)
  {
    hide Arrivals, SizesIn, EndSeen;
  }

  lemma CapturedAlike(written: Written, cap: int, pipes: Pipes, a: seq<Ready>, b: seq<Ready>, truncated: bool)
    requires Captured(written, cap, pipes, a, truncated) && Alike(written, a, b)
    ensures Captured(written, cap, pipes, b, truncated)
  {
    hide Arrivals, SizesIn, EndSeen, Of, Join;
  }

  /** Once both ends were seen nothing more arrives. */
  lemma {:induction false} EndedStays(written: Written, asked: seq<Ready>, more: seq<Ready>)
    requires EndSeen(written.stdout, SizesIn(Stdout, asked)) && EndSeen(written.stderr, SizesIn(Stderr, asked))
    ensures Alike(written, asked, asked + more)
  {
    hide Arrivals, SizesIn, EndSeen;
    if more == [] {
      assert asked + more == asked;
    } else {
      var n := |more| - 1;
      EndedStays(written, asked, more[..n]);
      assert asked + more == asked + more[..n] + [more[n]];
      SkipLast(written, asked + more[..n], more[n]);
    }
  }

  lemma {:induction false} ReadsGrow(wakeups: seq<Wakeup>, i: nat)
    requires i <= |wakeups|
    ensures Reads(wakeups[..i]) <= Reads(wakeups)
  {
    hide BothReady;
    if i == |wakeups| {
      assert wakeups[..i] == wakeups;
    } else {
      var n := |wakeups| - 1;
      assert wakeups[..n][..i] == wakeups[..i];
      ReadsGrow(wakeups[..n], i);
    }
  }

  lemma ReadsStep(wakeups: seq<Wakeup>, i: nat)
    requires i < |wakeups|
    ensures Reads(wakeups[..i + 1]) == Reads(wakeups[..i]) + BothReady(wakeups[i])
  {
    assert wakeups[..i + 1][..i] == wakeups[..i];
  }

  /** What was read stands for the whole schedule: all of it, or enough of it to fill the cap. */
  ghost predicate Stands(written: Written, wakeups: seq<Wakeup>, done: seq<Ready>, truncated: bool) {
    && Arrivals(written, done) <= Arrivals(written, Reads(wakeups))
    && (!truncated ==> Alike(written, done, Reads(wakeups)))
  }

  lemma ReadsSplit(wakeups: seq<Wakeup>, i: nat) returns (rest: seq<Ready>)
    requires i <= |wakeups|
    ensures Reads(wakeups) == Reads(wakeups[..i]) + rest
  {
    ReadsGrow(wakeups, i);
    hide Reads;
    rest := Reads(wakeups)[|Reads(wakeups[..i])|..];
  }

  lemma ArrivalsUpTo(written: Written, wakeups: seq<Wakeup>, i: nat)
    requires i <= |wakeups|
    ensures Arrivals(written, Reads(wakeups[..i])) <= Arrivals(written, Reads(wakeups))
  {
    hide Arrivals, Reads;
    var rest := ReadsSplit(wakeups, i);
    ArrivalsGrow(written, Reads(wakeups[..i]), rest);
  }

  lemma ArrivalsCut(written: Written, asked: seq<Ready>, ready: seq<Ready>, k: nat)
    requires k <= |ready|
    ensures Arrivals(written, asked + ready[..k]) <= Arrivals(written, asked + ready)
  {
    hide Arrivals;
    assert asked + ready == asked + ready[..k] + ready[k..];
    ArrivalsGrow(written, asked + ready[..k], ready[k..]);
  }

  lemma CutStands(written: Written, wakeups: seq<Wakeup>, i: nat, asked: seq<Ready>, ready: seq<Ready>, k: nat)
    requires i <= |wakeups| && k <= |ready| && Alike(written, asked + ready, Reads(wakeups[..i]))
    ensures Stands(written, wakeups, asked + ready[..k], true)
  {
    ArrivalsUpTo(written, wakeups, i);
    ArrivalsCut(written, asked, ready, k);
    hide Arrivals, SizesIn, EndSeen, Reads;
  }

  lemma AllStands(written: Written, wakeups: seq<Wakeup>, i: nat)
    requires i <= |wakeups|
    requires i == |wakeups| || (EndSeen(written.stdout, SizesIn(Stdout, Reads(wakeups[..i])))
                                && EndSeen(written.stderr, SizesIn(Stderr, Reads(wakeups[..i]))))
    ensures Stands(written, wakeups, Reads(wakeups[..i]), false)
  {
    hide Arrivals, SizesIn, EndSeen, Reads;
    ArrivalsUpTo(written, wakeups, i);
    if i < |wakeups| {
      var rest := ReadsSplit(wakeups, i);
      EndedStays(written, Reads(wakeups[..i]), rest);
    } else {
      assert wakeups[..i] == wakeups;
      AlikeSelf(written, Reads(wakeups));
    }
  }

  /** As many bytes arrive as both pipes' reads yield. */
  lemma ArrivedCount(written: Written, wakeups: seq<Wakeup>)
    ensures |Arrivals(written, Reads(wakeups))| ==
            Delivered(written.stdout, Sizes(Stdout, wakeups)) + Delivered(written.stderr, Sizes(Stderr, wakeups))
  {
    ArrivalsMean(written, Reads(wakeups), Stdout);
    ArrivalsMean(written, Reads(wakeups), Stderr);
    SizesOfReads(Stdout, wakeups);
    SizesOfReads(Stderr, wakeups);
    OfBoth(Arrivals(written, Reads(wakeups)));
    hide Arrivals, SizesIn, Of, Reads, Sum, Sizes;
  }

  /** The bytes of one pipe among the first to arrive are the first written to it. */
  lemma AdmittedPrefix(written: Written, cap: int, asked: seq<Ready>, name: Stream)
    ensures Of(name, Admitted(Arrivals(written, asked), cap)) <= written.On(name)
    ensures |Arrivals(written, asked)| <= NonNegative(cap) ==>
      Of(name, Admitted(Arrivals(written, asked), cap)) ==
      written.On(name)[..Delivered(written.On(name), SizesIn(name, asked))]
  {
    ArrivalsMean(written, asked, name);
    var log := Arrivals(written, asked);
    OfPrefix(name, log, |Admitted(log, cap)|);
    hide Of, Arrivals, SizesIn, Delivered;
  }

  lemma DeliveredAll(bytes: Bytes, sizes: seq<nat>)
    ensures Delivered(bytes, sizes) <= |bytes|
    ensures EndSeen(bytes, sizes) ==> Delivered(bytes, sizes) == |bytes|
  {
  }

  /** The captures are prefixes of what was written, together within the cap; whole as far as they were read where the
      cap admits it, and complete where the ends were seen. */
  lemma CaptureMeans(written: Written, cap: int, wakeups: seq<Wakeup>)
    ensures var log := Arrivals(written, Reads(wakeups));
            var out, err := Of(Stdout, Admitted(log, cap)), Of(Stderr, Admitted(log, cap));
            var a, b := Delivered(written.stdout, Sizes(Stdout, wakeups)), Delivered(written.stderr, Sizes(Stderr, wakeups));
            && out <= written.stdout && err <= written.stderr && a + b <= written.Total()
            && |out| + |err| == (if a + b <= NonNegative(cap) then a + b else NonNegative(cap))
            && (a + b <= NonNegative(cap) ==> out == written.stdout[..a] && err == written.stderr[..b])
            && (EndSeen(written.stdout, Sizes(Stdout, wakeups)) ==> a == |written.stdout|)
            && (EndSeen(written.stderr, Sizes(Stderr, wakeups)) ==> b == |written.stderr|)
  {
    ArrivedCount(written, wakeups);
    SizesOfReads(Stdout, wakeups);
    SizesOfReads(Stderr, wakeups);
    AdmittedPrefix(written, cap, Reads(wakeups), Stdout);
    AdmittedPrefix(written, cap, Reads(wakeups), Stderr);
    OfBoth(Admitted(Arrivals(written, Reads(wakeups)), cap));
    DeliveredAll(written.stdout, Sizes(Stdout, wakeups));
    DeliveredAll(written.stderr, Sizes(Stderr, wakeups));
    hide Of, Arrivals, SizesIn, Sizes, Reads, EndSeen, Delivered;
  }

  // ---------------------------------------------------------------------------------------
  // The loop
  // ---------------------------------------------------------------------------------------

  /** One wakeup's reads, up to the one that finds the cap full. */
  method ReadReady(written: Written, cap: int, ghost asked: seq<Ready>, ready: seq<Ready>, before: Pipes)
    returns (pipes: Pipes, truncated: bool, ghost k: nat)
    requires Captured(written, cap, before, asked, false)
    requires forall j :: 0 <= j < |ready| ==> before.On(ready[j].name).open
    requires forall i, j :: 0 <= i < j < |ready| ==> ready[i].name != ready[j].name
    ensures k <= |ready| && Captured(written, cap, pipes, asked + ready[..k], truncated)
    ensures !truncated ==> k == |ready|
  {
    hide Captured, Read, Kept;
    pipes, truncated := before, false;
    k := 0;
    assert asked + ready[..0] == asked;
    var j := 0;
    while j < |ready|
      invariant k == j <= |ready|
      invariant Captured(written, cap, pipes, asked + ready[..j], truncated)
      invariant forall i :: j <= i < |ready| ==> pipes.On(ready[i].name).open
    {
      var name, size := ready[j].name, ready[j].size;
      var p := pipes.On(name);
      ReadKeeps(written, cap, pipes, asked + ready[..j], truncated, ready[j]);
      assert asked + ready[..j + 1] == asked + ready[..j] + [ready[j]];
      var chunk := Read(written.On(name), p.at, size);
      var room := cap - pipes.Size();
      k := j + 1;
      if chunk == [] {
        pipes := pipes.With(name, p.(open := false));
      } else if room <= 0 {
        pipes := pipes.With(name, p.(at := p.at + |chunk|));
        truncated := true;
        break;
      } else {
        var kept := Kept(chunk, room);
        truncated := truncated || |kept| < |chunk|;
        pipes := pipes.With(name, Pipe(p.chunks + [kept], p.size + |kept|, p.at + |chunk|, true));
      }
      j := j + 1;
    }
  }

  /** wakeups are the selector's returns before the deadline; endsInTime whether the process is then reaped
      within its budget. A cap below zero admits what a cap of zero does. */
  method RunInvocation(written: Written, cap: int, wakeups: seq<Wakeup>, endsInTime: bool)
    returns (result: InvocationResult)
    ensures result.stdout == Of(Stdout, Admitted(Arrivals(written, Reads(wakeups)), cap))
    ensures result.stderr == Of(Stderr, Admitted(Arrivals(written, Reads(wakeups)), cap))
    ensures result.truncated <==>
      Delivered(written.stdout, Sizes(Stdout, wakeups)) + Delivered(written.stderr, Sizes(Stderr, wakeups)) > NonNegative(cap)
    ensures result.timedOut <==>
      !endsInTime || !(result.truncated || (EndSeen(written.stdout, Sizes(Stdout, wakeups))
                                            && EndSeen(written.stderr, Sizes(Stderr, wakeups))))
    ensures !result.truncated ==>
      && result.stdout == written.stdout[..Delivered(written.stdout, Sizes(Stdout, wakeups))]
      && result.stderr == written.stderr[..Delivered(written.stderr, Sizes(Stderr, wakeups))]
    ensures result.stdout <= written.stdout && result.stderr <= written.stderr
    ensures |result.stdout| + |result.stderr| <= NonNegative(cap)
    ensures result.truncated ==>
      |result.stdout| + |result.stderr| == NonNegative(cap) && written.Total() > NonNegative(cap)
    ensures !result.timedOut && !result.truncated ==>
      result.stdout == written.stdout && result.stderr == written.stderr
    ensures !result.timedOut ==> (result.truncated <==> written.Total() > NonNegative(cap))
  {
    hide Captured, Select, Stands, Reads, SizesIn, Sizes, Arrivals, Of, EndSeen, Delivered, Join, Admitted, Alike;
    var pipes := Pipes(Pipe([], 0, 0, true), Pipe([], 0, 0, true));
    var timedOut, truncated := false, false;
    CaptureStarts(written, cap);
    assert Reads(wakeups[..0]) == [] by { NoReads(wakeups); }
    var i := 0;
    ghost var done: seq<Ready> := [];
    while pipes.stdout.open || pipes.stderr.open
      invariant 0 <= i <= |wakeups|
      invariant !timedOut && !truncated && done == Reads(wakeups[..i]) && Captured(written, cap, pipes, done, truncated)
      decreases |wakeups| - i
    {
      if i == |wakeups| {
        timedOut := true;
        break;
      }
      var ready := Select(wakeups[i], pipes);
      Selected(wakeups[i], pipes);
      SelectAlike(written, cap, pipes, done, wakeups[i]);
      ReadsStep(wakeups, i);
      ghost var k: nat;
      i := i + 1;
      pipes, truncated, k := ReadReady(written, cap, done, ready, pipes);
      if truncated {
        CutStands(written, wakeups, i, done, ready, k);
        done := done + ready[..k];
        break;
      }
      assert ready[..|ready|] == ready;
      CapturedAlike(written, cap, pipes, done + ready, Reads(wakeups[..i]), truncated);
      done := Reads(wakeups[..i]);
    }
    if !truncated {
      Opened(written, cap, pipes, done);
      AllStands(written, wakeups, i);
    }
    Finish(written, cap, wakeups, pipes, done, truncated);
    CaptureMeans(written, cap, wakeups);
    timedOut := timedOut || !endsInTime;
    result := InvocationResult(Join(pipes.stdout.chunks), Join(pipes.stderr.chunks), timedOut, truncated);
  }

  lemma NoReads(wakeups: seq<Wakeup>)
    ensures Reads(wakeups[..0]) == []
  {
  }

  lemma Selected(w: Wakeup, pipes: Pipes)
    ensures forall j :: 0 <= j < |Select(w, pipes)| ==> pipes.On(Select(w, pipes)[j].name).open
    ensures forall i, j :: 0 <= i < j < |Select(w, pipes)| ==> Select(w, pipes)[i].name != Select(w, pipes)[j].name
  {
  }

  lemma SameAdmitted(log: seq<Byte>, all: seq<Byte>, cap: int)
    requires log <= all && |log| > NonNegative(cap)
    ensures Admitted(log, cap) == Admitted(all, cap) && |all| > NonNegative(cap)
  {
  }

  /** What the loop leaves, in terms of the whole schedule. */
  lemma Finish(written: Written, cap: int, wakeups: seq<Wakeup>, pipes: Pipes, done: seq<Ready>, truncated: bool)
    requires Captured(written, cap, pipes, done, truncated) && Stands(written, wakeups, done, truncated)
    ensures Join(pipes.stdout.chunks) == Of(Stdout, Admitted(Arrivals(written, Reads(wakeups)), cap))
    ensures Join(pipes.stderr.chunks) == Of(Stderr, Admitted(Arrivals(written, Reads(wakeups)), cap))
    ensures var arrived := Delivered(written.stdout, Sizes(Stdout, wakeups)) + Delivered(written.stderr, Sizes(Stderr, wakeups));
            truncated <==> arrived > NonNegative(cap)
    ensures !truncated ==> (pipes.stdout.open <==> !EndSeen(written.stdout, Sizes(Stdout, wakeups)))
    ensures !truncated ==> (pipes.stderr.open <==> !EndSeen(written.stderr, Sizes(Stderr, wakeups)))
  {
    ArrivedCount(written, wakeups);
    SizesOfReads(Stdout, wakeups);
    SizesOfReads(Stderr, wakeups);
    hide Of, Arrivals, SizesIn, Sizes, Reads, EndSeen, Join, Delivered, Admitted;
    if truncated {
      SameAdmitted(Arrivals(written, done), Arrivals(written, Reads(wakeups)), cap);
    }
  }
}
