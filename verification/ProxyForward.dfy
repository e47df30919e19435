/** One directional pump of the TCP fault proxy, run to its end by itself. */
module ProxyForward {
  import opened Wrappers

  /** `pauseSeconds == 0.0` means: stop reading until shutdown. */
  datatype Direction = Direction(
    latencyMs: real,
    bytesPerSecond: real,
    pauseAfter: Option<int>,
    pauseSeconds: real,
    disconnectAfter: Option<int>)

  /** What the constructor of a policy accepts. */
  predicate Accepted(d: Direction) {
    && d.latencyMs >= 0.0 && d.bytesPerSecond >= 0.0 && d.pauseSeconds >= 0.0
    && (d.pauseAfter.Some? ==> d.pauseAfter.value >= 0)
    && (d.disconnectAfter.Some? ==> d.disconnectAfter.value >= 0)
  }

  /** Everything the source will ever send, and whether it then shuts down its
      side of the connection. */
  datatype Stream = Stream(data: seq<Byte>, closes: bool)

  datatype End =
    | Eof            // the source's end of stream was passed on
    | Disconnected   // the policy cut the session
    | Parked         // stopped at the pause boundary until shutdown
    | Starved        // waiting for a source that stays open and silent

  // ----- what the policy promises, stated on the stream alone -----

  /** The stream reaches the pause boundary before any disconnect. */
  predicate PauseReached(d: Direction, n: nat) {
    && d.pauseAfter.Some? && n >= d.pauseAfter.value
    && (d.disconnectAfter.Some? ==> d.pauseAfter.value < d.disconnectAfter.value)
  }

  predicate Parks(d: Direction, n: nat) {
    PauseReached(d, n) && d.pauseSeconds == 0.0
  }

  predicate Cuts(d: Direction, n: nat) {
    !Parks(d, n) && d.disconnectAfter.Some? && n >= d.disconnectAfter.value
  }

  function DeliveredCount(d: Direction, n: nat): (r: nat)
    requires Accepted(d)
    ensures r <= n
  {
    if Parks(d, n) then d.pauseAfter.value
    else if Cuts(d, n) then d.disconnectAfter.value
    else n
  }

  function Delivered(d: Direction, s: Stream): seq<Byte>
    requires Accepted(d)
  {
    s.data[..DeliveredCount(d, |s.data|)]
  }

  function Ending(d: Direction, s: Stream): End {
    if Parks(d, |s.data|) then Parked
    else if Cuts(d, |s.data|) then Disconnected
    else if s.closes then Eof
    else Starved
  }

  function PausesTaken(d: Direction, s: Stream): seq<int> {
    if PauseReached(d, |s.data|) then [d.pauseAfter.value] else []
  }

  /** Time asleep: the latency once per chunk, the bandwidth delay per byte
      however the bytes were grouped, and the pause if it was reached. */
  function TimeAsleep(d: Direction, chunks: nat, bytes: nat, paused: bool): real {
    chunks as real * (d.latencyMs / 1000.0)
    + (if d.bytesPerSecond == 0.0 then 0.0 else bytes as real / d.bytesPerSecond)
    + (if paused then d.pauseSeconds else 0.0)
  }

  lemma OneMoreChunk(d: Direction, chunks: nat, bytes: nat, n: nat, paused: bool)
    ensures TimeAsleep(d, chunks + 1, bytes + n, paused) ==
            TimeAsleep(d, chunks, bytes, paused) + d.latencyMs / 1000.0
            + (if d.bytesPerSecond == 0.0 then 0.0 else n as real / d.bytesPerSecond)
  {
    var latency := d.latencyMs / 1000.0;
    assert (chunks + 1) as real * latency == chunks as real * latency + latency;
    if d.bytesPerSecond != 0.0 {
      assert (bytes + n) as real / d.bytesPerSecond == bytes as real / d.bytesPerSecond + n as real / d.bytesPerSecond;
    }
  }

  // ----- the loop -----

  datatype Received = Data(bytes: seq<Byte>) | EndOfStream | Never

  /** The transport: any non-empty short read of what is left. */
  method Recv(rest: seq<Byte>, closes: bool, size: nat) returns (r: Received)
    requires size >= 1
    ensures rest != [] ==> r.Data? && 1 <= |r.bytes| <= size && r.bytes <= rest
    ensures rest == [] ==> r == if closes then EndOfStream else Never
  {
    if rest == [] {
      return if closes then EndOfStream else Never;
    }
    var n :| 1 <= n <= size && n <= |rest|;
    return Data(rest[..n]);
  }

  /** What is delivered, how it ends and when it pauses depend on the stream and
      the policy only: neither `chunkBytes` nor the sizes of the reads occur on
      the right-hand sides below. */
  method Forward(s: Stream, d: Direction, chunkBytes: nat)
    returns (sent: seq<Byte>, end: End, requested: seq<int>, pauses: seq<int>, chunks: nat, asleep: real)
    requires Accepted(d) && chunkBytes >= 1
    ensures sent == Delivered(d, s) && end == Ending(d, s)
    ensures pauses == PausesTaken(d, s)
    ensures forall r :: r in requested ==> 1 <= r <= chunkBytes
    ensures asleep == TimeAsleep(d, chunks, |sent|, PauseReached(d, |s.data|))
    ensures chunks <= |sent| <= chunks * chunkBytes
  {
    var transferred: nat, paused := 0, false;
    sent, requested, pauses, chunks, asleep := [], [], [], 0, 0.0;
    while true
      invariant transferred == |sent| <= |s.data| && sent == s.data[..transferred]
      invariant d.disconnectAfter.Some? ==> transferred <= d.disconnectAfter.value
      invariant !paused && d.pauseAfter.Some? ==> transferred <= d.pauseAfter.value
      invariant paused ==> PauseReached(d, transferred) && d.pauseSeconds != 0.0
      invariant pauses == if paused then [d.pauseAfter.value] else []
      invariant forall r :: r in requested ==> 1 <= r <= chunkBytes
      invariant asleep == TimeAsleep(d, chunks, transferred, paused)
      invariant chunks <= transferred <= chunks * chunkBytes
      decreases |s.data| - transferred
    {
      if d.disconnectAfter.Some? && transferred >= d.disconnectAfter.value {
        end := Disconnected;
        return;
      }
      if !paused && d.pauseAfter.Some? && transferred >= d.pauseAfter.value {
        paused := true;
        pauses := pauses + [transferred];
        if d.pauseSeconds != 0.0 {
          asleep := asleep + d.pauseSeconds;
        } else {
          end := Parked;
          return;
        }
      }
      var size: int := chunkBytes;
      if d.disconnectAfter.Some? && d.disconnectAfter.value - transferred < size {
        size := d.disconnectAfter.value - transferred;
      }
      if !paused && d.pauseAfter.Some? && d.pauseAfter.value - transferred < size {
        size := d.pauseAfter.value - transferred;
      }
      requested := requested + [size];
      var received := Recv(s.data[transferred..], s.closes, size);
      if received.Never? {
        end := Starved;
        return;
      }
      if received.EndOfStream? {
        end := Eof;
        return;
      }
      var data := received.bytes;
      var delay := d.latencyMs / 1000.0;
      if d.bytesPerSecond != 0.0 {
        delay := delay + |data| as real / d.bytesPerSecond;
      }
      OneMoreChunk(d, chunks, transferred, |data|, paused);
      if delay != 0.0 {
        asleep := asleep + delay;
      }
      assert s.data[..transferred + |data|] == sent + data;
      sent := sent + data;
      chunks := chunks + 1;
      transferred := transferred + |data|;
    }
  }

  /** How a pump ends, boundary by boundary: it parks at a pause without duration that
      comes before any cut, is cut exactly at its boundary, and otherwise passes on the
      whole stream; a pause is taken once, at its boundary, iff it comes before any cut. */
  lemma EndsIff(d: Direction, s: Stream)
    requires Accepted(d)
    ensures var n, sent, end := |s.data|, Delivered(d, s), Ending(d, s);
            var pauses := d.pauseAfter.Some? && d.pauseAfter.value <= n
                          && (d.disconnectAfter.Some? ==> d.pauseAfter.value < d.disconnectAfter.value);
            && sent <= s.data
            && (end == Parked <==> pauses && d.pauseSeconds == 0.0)
            && (end == Parked ==> |sent| == d.pauseAfter.value)
            && (end == Disconnected <==>
                  end != Parked && d.disconnectAfter.Some? && d.disconnectAfter.value <= n)
            && (end == Disconnected ==> |sent| == d.disconnectAfter.value)
            && (end in {Eof, Starved} ==> sent == s.data && (end == Eof <==> s.closes))
            && PausesTaken(d, s) == if pauses then [d.pauseAfter.value] else []
  {
  }

  /** Delivery is monotone in the stream: a longer source only extends it. */
  lemma DeliveryExtends(d: Direction, s: Stream, t: Stream)
    requires Accepted(d) && s.data <= t.data
    ensures Delivered(d, s) <= Delivered(d, t)
    ensures Ending(d, s) in {Parked, Disconnected} ==>
        Delivered(d, t) == Delivered(d, s) && Ending(d, t) == Ending(d, s)
  {
  }
}
