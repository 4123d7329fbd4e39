/**
  Sending one or more frames to a list of connections, and what each
  connection receives as a result. `FanOut` is the `viewers.forEach` loop:
  each target whose transport is open is sent every frame in order, before
  the next target is served.
 */
module Fanout {
  import opened Seqs
  import opened Protocol

  /** Every frame of `frames`, in order, addressed to `to`. */
  function Deliver(to: ConnId, frames: seq<Frame>): seq<Send> {
    seq(|frames|, i requires 0 <= i < |frames| => Send(to, frames[i]))
  }

  /** The frames of `targets`' broadcast loop, skipping targets that are not open. */
  function FanOut(targets: seq<ConnId>, open: set<ConnId>, frames: seq<Frame>): seq<Send>
    decreases |targets|
  {
    if targets == [] then []
    else
      var last := targets[|targets| - 1];
      FanOut(targets[..|targets| - 1], open, frames) + (if last in open then Deliver(last, frames) else [])
  }

  /** The frames that connection `c` receives from `sends`, in the order sent. */
  function Inbox(sends: seq<Send>, c: ConnId): seq<Frame>
    decreases |sends|
  {
    if sends == [] then []
    else
      var last := sends[|sends| - 1];
      Inbox(sends[..|sends| - 1], c) + (if last.to == c then [last.frame] else [])
  }

  lemma {:induction false} InboxConcat(a: seq<Send>, b: seq<Send>, c: ConnId)
    ensures Inbox(a + b, c) == Inbox(a, c) + Inbox(b, c)
    decreases |b|
  {
    if b == [] {
      assert a + b == a;
    } else {
      var b' := b[..|b| - 1];
      assert (a + b)[..|a + b| - 1] == a + b';
      InboxConcat(a, b', c);
    }
  }

  /** Frames delivered to one connection reach that connection, whole and in order, and nobody else. */
  lemma {:induction false} InboxDeliver(to: ConnId, frames: seq<Frame>, c: ConnId)
    ensures Inbox(Deliver(to, frames), c) == if c == to then frames else []
    decreases |frames|
  {
    if frames != [] {
      var n := |frames| - 1;
      assert Deliver(to, frames)[..n] == Deliver(to, frames[..n]);
      InboxDeliver(to, frames[..n], c);
      assert frames[..n] + [frames[n]] == frames;
    }
  }

  /**
    A broadcast to duplicate-free targets gives each open target the whole
    message, exactly once and in order, and gives every other connection
    nothing.
   */
  lemma {:induction false} InboxFanOut(targets: seq<ConnId>, open: set<ConnId>, frames: seq<Frame>, c: ConnId)
    requires NoDups(targets)
    ensures Inbox(FanOut(targets, open, frames), c) == if c in targets && c in open then frames else []
    decreases |targets|
  {
    if targets != [] {
      var n := |targets| - 1;
      var prefix, last := targets[..n], targets[n];
      assert targets == prefix + [last];
      assert NoDups(prefix) by {
        forall i, j | 0 <= i < j < |prefix| ensures prefix[i] != prefix[j] {
          assert prefix[i] == targets[i] && prefix[j] == targets[j];
        }
      }
      InboxFanOut(prefix, open, frames, c);
      var tail := if last in open then Deliver(last, frames) else [];
      InboxConcat(FanOut(prefix, open, frames), tail, c);
      if last in open {
        InboxDeliver(last, frames, c);
      }
      if c == last {
        assert c !in prefix by {
          forall i | 0 <= i < |prefix| ensures prefix[i] != c {
            assert prefix[i] == targets[i];
          }
        }
      }
    }
  }

  /**
    `r` is a run of pairs: each goes to an open target and is a first frame
    `a` followed immediately by a second frame `b` to the same target.
   */
  predicate Paired(r: seq<Send>, targets: seq<ConnId>, open: set<ConnId>, a: Frame, b: Frame) {
    && |r| % 2 == 0
    && (forall k | 0 <= k < |r| :: r[k].to in targets && r[k].to in open)
    && (forall k | 0 <= k < |r| && k % 2 == 0 :: r[k].frame == a)
    && (forall k | 0 <= k < |r| && k % 2 == 1 :: r[k] == Send(r[k - 1].to, b))
  }

  /** A broadcast of a two-frame message (announcement, then payload) never splits a pair. */
  lemma {:induction false} FanOutPairs(targets: seq<ConnId>, open: set<ConnId>, a: Frame, b: Frame)
    ensures Paired(FanOut(targets, open, [a, b]), targets, open, a, b)
    decreases |targets|
  {
    if targets != [] {
      var n := |targets| - 1;
      var prefix, last := targets[..n], targets[n];
      FanOutPairs(prefix, open, a, b);
      var p := FanOut(prefix, open, [a, b]);
      var tail := if last in open then Deliver(last, [a, b]) else [];
      var r := p + tail;
      assert r == FanOut(targets, open, [a, b]);
      assert targets == prefix + [last];
      forall k | 0 <= k < |r|
        ensures r[k].to in targets && r[k].to in open
        ensures k % 2 == 0 ==> r[k].frame == a
        ensures k % 2 == 1 ==> r[k] == Send(r[k - 1].to, b)
      {
        if k < |p| {
          assert r[k] == p[k];
          assert p[k].to in prefix;
          if k % 2 == 1 {
            assert r[k - 1] == p[k - 1];
          }
        } else {
          assert last in open && |tail| == 2;
          assert tail[0] == Send(last, a) && tail[1] == Send(last, b);
          if k == |p| {
            assert k % 2 == 0 && r[k] == tail[0];
          } else {
            assert k == |p| + 1 && k % 2 == 1 && r[k] == tail[1] && r[k - 1] == tail[0];
          }
        }
      }
    }
  }

  /** Every send of a fan-out carries one of the message's frames. */
  lemma {:induction false} OnlyFramesSent(targets: seq<ConnId>, open: set<ConnId>, frames: seq<Frame>, k: nat)
    requires k < |FanOut(targets, open, frames)|
    ensures FanOut(targets, open, frames)[k].frame in frames
    decreases |targets|
  {
    var n := |targets| - 1;
    var p := FanOut(targets[..n], open, frames);
    if k < |p| {
      OnlyFramesSent(targets[..n], open, frames, k);
    } else {
      assert FanOut(targets, open, frames)[k] == Deliver(targets[n], frames)[k - |p|];
    }
  }
}
