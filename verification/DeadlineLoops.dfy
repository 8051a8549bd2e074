/** The bounded loops of the desktop shell (frontend/src-tauri/src/lib.rs:284-453).
    Times are microseconds; what the outside world does is given by functions of
    how often it was asked. */
module DeadlineLoops {
  import opened Wrappers

  newtype byte = x: int | 0 <= x < 256

  const HTTP_IO_TIMEOUT := 750_000
  const BACKEND_RETRY_DELAY := 100_000
  const WATCHDOG_POLL_INTERVAL := 100_000
  const BUFFER := 32

  // --------------------------------------------------------- the recogniser

  function Ascii(s: string): (r: seq<byte>)
    ensures |r| == |s|
    ensures forall k :: 0 <= k < |s| && s[k] < 128 as char ==> r[k] as int == s[k] as int
  {
    seq(|s|, k requires 0 <= k < |s| => if s[k] < 128 as char then s[k] as byte else 63)
  }

  const OK11 := Ascii("HTTP/1.1 200 ")
  const OK10 := Ascii("HTTP/1.0 200 ")

  predicate ResponseIsOk(response: seq<byte>) { OK11 <= response || OK10 <= response }

  predicate ResponseMayBeOk(response: seq<byte>) {
    ResponseIsOk(response) || response <= OK11 || response <= OK10
  }

  /** The two accepted status lines, byte by byte. */
  lemma StatusLines(response: seq<byte>)
    ensures OK11 == [72, 84, 84, 80, 47, 49, 46, 49, 32, 50, 48, 48, 32]
    ensures OK10 == [72, 84, 84, 80, 47, 49, 46, 48, 32, 50, 48, 48, 32]
    ensures ResponseIsOk(response) <==>
              |response| >= 13 && response[7] in {48, 49}
              && response[..7] == [72, 84, 84, 80, 47, 49, 46] && response[8..13] == [32, 50, 48, 48, 32]
  {
    assert OK11 == [72, 84, 84, 80, 47, 49, 46, 49, 32, 50, 48, 48, 32];
    assert OK10 == [72, 84, 84, 80, 47, 49, 46, 48, 32, 50, 48, 48, 32];
    if |response| >= 13 {
      assert response[..13] == response[..7] + [response[7]] + response[8..13];
      if ResponseIsOk(response) {
        var ok := if OK11 <= response then OK11 else OK10;
        assert response[..13] == ok;
        assert response[..7] == ok[..7] && response[8..13] == ok[8..13] && response[7] == ok[7];
      }
      assert [72, 84, 84, 80, 47, 49, 46] + [49 as byte] + [32, 50, 48, 48, 32] == OK11;
      assert [72, 84, 84, 80, 47, 49, 46] + [48 as byte] + [32, 50, 48, 48, 32] == OK10;
      assert OK11 <= response <==> response[..13] == OK11;
      assert OK10 <= response <==> response[..13] == OK10;
    }
  }

  /** What a prefix of the stream tells about the stream: an accepted prefix
      settles it, a prefix no longer possible settles it the other way, and
      thirteen bytes always settle it. */
  lemma PrefixDecides(prefix: seq<byte>, stream: seq<byte>)
    requires prefix <= stream
    ensures ResponseIsOk(prefix) ==> ResponseIsOk(stream)
    ensures !ResponseMayBeOk(prefix) ==> !ResponseIsOk(stream)
    ensures |prefix| >= 13 ==> ResponseIsOk(prefix) || !ResponseMayBeOk(prefix)
    ensures |prefix| < 13 ==> !ResponseIsOk(prefix)
  {
    if ResponseIsOk(stream) {
      var ok := if OK11 <= stream then OK11 else OK10;
      if |prefix| >= 13 {
        assert ok == stream[..13] == prefix[..13];
      } else {
        assert prefix == stream[..|prefix|] == ok[..|prefix|];
      }
    }
  }

  function SaturatingSince(deadline: int, now: int): nat { if now >= deadline then 0 else deadline - now }

  function ClampedTimeout(remaining: nat, maximum: nat): Option<nat> {
    if remaining == 0 then None else Some(if remaining < maximum then remaining else maximum)
  }

  /** A timeout that was set before the deadline is the budget left, or its cap if that is less. */
  predicate Fits(timeout: nat, now: int, deadline: int, maximum: nat) {
    0 < timeout <= maximum && now + timeout <= deadline && (timeout == maximum || now + timeout == deadline)
  }

  lemma ClampedFits(now: int, deadline: int, maximum: nat)
    requires maximum > 0
    ensures var t := ClampedTimeout(SaturatingSince(deadline, now), maximum);
            if now < deadline then t.Some? && Fits(t.value, now, deadline, maximum) else t.None?
  {
  }

  // ------------------------------------------------------------- reading

  /** How the socket behaves: the clock at the k-th reading, whether the k-th
      timeout is accepted, whether the k-th read fails and how much it would deliver. */
  datatype Socket = Socket(now: nat -> int, timeoutOk: nat -> bool, fails: nat -> bool, offers: nat -> nat)

  /** One read behind the first `received` bytes of the buffer: what the peer
      offers, at least a byte and at most what is left and what fits; nothing at
      the end of the stream. */
  method ReadInto(buffer: array<byte>, received: nat, stream: seq<byte>, offered: nat) returns (count: nat)
    requires received <= |stream| && received < buffer.Length && buffer[..received] == stream[..received]
    modifies buffer
    ensures received + count <= |stream| && received + count <= buffer.Length
    ensures count == 0 <==> received == |stream|
    ensures buffer[..received + count] == stream[..received + count]
  {
    var room := buffer.Length - received;
    var left := |stream| - received;
    var most := if left < room then left else room;
    count := if most == 0 then 0 else if offered < 1 then 1 else if offered < most then offered else most;
    ghost var before := buffer[..received];
    forall j | 0 <= j < count {
      buffer[received + j] := stream[received + j];
    }
    assert forall j :: 0 <= j < received + count ==> buffer[j] == stream[j] by {
      assert forall j :: 0 <= j < received ==> buffer[j] == before[j] == stream[..received][j];
    }
  }

  /** The read loop of `loopback_http_ok` on a peer that sends `stream` and
      closes.  A positive verdict means the stream starts with an accepted
      status line and the deadline was not reached; unless the turn it stopped
      at ran out of time or failed, the verdict is exactly that test, however the
      stream is cut into reads; and the buffer never fills undecided. */
  method ProbeStatus(stream: seq<byte>, deadline: int, socket: Socket)
    returns (ok: bool, turns: nat, filled: bool, timeouts: seq<nat>)
    ensures ok ==> ResponseIsOk(stream) && socket.now(turns) < deadline
    ensures socket.now(turns) < deadline && socket.timeoutOk(turns) && !socket.fails(turns) ==>
              ok == ResponseIsOk(stream)
    ensures !filled && turns <= 13 && turns <= |timeouts| <= turns + 1
    ensures forall k :: 0 <= k < |timeouts| ==> Fits(timeouts[k], socket.now(k), deadline, 750_000)
  {
    var response := new byte[BUFFER](_ => 0);
    var received := 0;
    turns, timeouts := 0, [];
    PrefixDecides([], stream);
    assert ResponseMayBeOk([]);
    hide ResponseIsOk, ResponseMayBeOk, Fits, ClampedTimeout, SaturatingSince, OK10, OK11;
    while received < response.Length
      invariant received <= |stream| && received <= response.Length
      invariant response[..received] == stream[..received]
      invariant ResponseMayBeOk(stream[..received]) && !ResponseIsOk(stream[..received])
      invariant turns <= received <= 12 && |timeouts| == turns
      invariant forall k :: 0 <= k < |timeouts| ==> Fits(timeouts[k], socket.now(k), deadline, 750_000)
      decreases response.Length - received
    {
      var timeout := ClampedTimeout(SaturatingSince(deadline, socket.now(turns)), HTTP_IO_TIMEOUT);
      ClampedFits(socket.now(turns), deadline, HTTP_IO_TIMEOUT);
      if timeout.None? {
        return false, turns, false, timeouts;
      }
      timeouts := timeouts + [timeout.value];
      if !socket.timeoutOk(turns) || socket.fails(turns) {
        return false, turns, false, timeouts;
      }
      var count := ReadInto(response, received, stream, socket.offers(turns));
      if count == 0 {
        assert stream[..received] == stream;
        return false, turns, false, timeouts;
      }
      received := received + count;
      turns := turns + 1;
      var status := response[..received];
      PrefixDecides(status, stream);
      if ResponseIsOk(status) {
        return socket.now(turns) < deadline, turns, false, timeouts;
      }
      if !ResponseMayBeOk(status) {
        return false, turns, false, timeouts;
      }
    }
    return false, turns, true, timeouts;
  }

  // ------------------------------------------------------------- writing

  /** The k-th write takes this many bytes, at most what is offered; None is an error. */
  datatype Sink = Sink(now: nat -> int, timeoutOk: nat -> bool, takes: nat -> Option<nat>)

  /** Whatever the sink does it has received a prefix of the request, every
      timeout fits the remaining budget, and the answer is true exactly when all
      was written and the deadline is still ahead; that is, exactly when no
      round made failed or took nothing and time is left after the last one. */
  method WriteAllBeforeDeadline(bytes: seq<byte>, deadline: int, sink: Sink)
    returns (ok: bool, written: seq<byte>, timeouts: seq<nat>)
    ensures written <= bytes
    ensures ok <==> written == bytes && sink.now(|timeouts|) < deadline
    ensures forall k :: 0 <= k < |timeouts| ==> Fits(timeouts[k], sink.now(k), deadline, 750_000)
    ensures |timeouts| <= |bytes|
    ensures ok <==> sink.now(|timeouts|) < deadline
                    && forall k :: 0 <= k < |timeouts| ==>
                         sink.timeoutOk(k) && sink.takes(k).Some? && sink.takes(k).value > 0
  {
    var offset := 0;
    timeouts := [];
    while offset < |bytes|
      invariant |timeouts| <= offset <= |bytes|
      invariant forall k :: 0 <= k < |timeouts| ==> sink.timeoutOk(k) && sink.takes(k).Some? && sink.takes(k).value > 0
      invariant forall k :: 0 <= k < |timeouts| ==> Fits(timeouts[k], sink.now(k), deadline, 750_000)
      decreases |bytes| - offset
    {
      var round := |timeouts|;
      var timeout := ClampedTimeout(SaturatingSince(deadline, sink.now(round)), HTTP_IO_TIMEOUT);
      if timeout.None? {
        return false, bytes[..offset], timeouts;
      }
      timeouts := timeouts + [timeout.value];
      if !sink.timeoutOk(round) {
        return false, bytes[..offset], timeouts;
      }
      match sink.takes(round)
      case None => return false, bytes[..offset], timeouts;
      case Some(taken) =>
        var most := if taken < |bytes| - offset then taken else |bytes| - offset;
        if most == 0 {
          return false, bytes[..offset], timeouts;
        }
        offset := offset + most;
    }
    return sink.now(|timeouts|) < deadline, bytes[..offset], timeouts;
  }

  // ------------------------------------------------------------- waiting

  /** The backend in round k: how each probe ends, how long each takes, and how
      far the sleep of the round moves the clock. */
  datatype Backend = Backend(health: nat -> bool, root: nat -> bool,
                             healthTime: nat -> nat, rootTime: nat -> nat, slept: nat -> nat)

  /** When round k begins: the probes made and the sleeps before it have passed. */
  function Began(start: int, backend: Backend, k: nat): int
    decreases k, 0
  {
    if k == 0 then start else ProbesEnd(start, backend, k - 1) + backend.slept(k - 1)
  }

  /** When the probes of round k are over; `/` is asked only after `/health` succeeded. */
  function ProbesEnd(start: int, backend: Backend, k: nat): int
    decreases k, 1
  {
    Began(start, backend, k) + backend.healthTime(k) + if backend.health(k) then backend.rootTime(k) else 0
  }

  /** Ready means that round `round`, the first in which both probes succeed, ended
      before the deadline; not ready means that the deadline came in that round.  It
      is looked at before the round, between its probes, so that `/` is not asked
      after it, and after them.  All earlier rounds ended in
      time and were followed by a sleep that does not reach past the deadline; the
      loop ends if sleeping moves the clock. */
  method WaitForBackendReady(start: int, deadline: int, backend: Backend)
    returns (ready: bool, round: nat, now: int, sleeps: seq<(int, nat)>)
    requires forall k: nat :: backend.slept(k) >= 1
    ensures ready <==>
              backend.health(round) && backend.root(round) && ProbesEnd(start, backend, round) < deadline
    ensures forall k: nat :: k < round ==> !(backend.health(k) && backend.root(k))
    ensures !ready ==> now >= deadline
    ensures var began := Began(start, backend, round);
            var healthy := began + backend.healthTime(round);
            now == if began >= deadline then began
                   else if backend.health(round) && healthy >= deadline then healthy
                   else ProbesEnd(start, backend, round)
    ensures |sleeps| == round
    ensures forall k :: 0 <= k < round ==>
              sleeps[k].0 == ProbesEnd(start, backend, k) && Fits(sleeps[k].1, sleeps[k].0, deadline, 100_000)
  {
    now, round, sleeps := start, 0, [];
    while true
      invariant |sleeps| == round && now == Began(start, backend, round)
      invariant forall k: nat :: k < round ==> !(backend.health(k) && backend.root(k))
      invariant forall k :: 0 <= k < round ==>
                  sleeps[k].0 == ProbesEnd(start, backend, k) && Fits(sleeps[k].1, sleeps[k].0, deadline, 100_000)
      decreases SaturatingSince(deadline, now)
    {
      if now >= deadline {
        return false, round, now, sleeps;
      }
      now := now + backend.healthTime(round);
      if backend.health(round) {
        if now >= deadline {
          return false, round, now, sleeps;
        }
        now := now + backend.rootTime(round);
        if backend.root(round) {
          return now < deadline, round, now, sleeps;
        }
      }
      var delay := ClampedTimeout(SaturatingSince(deadline, now), BACKEND_RETRY_DELAY);
      if delay.None? {
        return false, round, now, sleeps;
      }
      sleeps := sleeps + [(now, delay.value)];
      now := now + backend.slept(round);
      round := round + 1;
    }
  }
}
