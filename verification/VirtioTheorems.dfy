/**
  What the driver and the device have done, read off the list of their actions alone: which request the
  device reads next, which completion the driver handles next, which buffers are busy and which
  descriptors are in use (kernel/virtio_disk.c).
 */
module VirtioTheorems {
  import opened Virtio

  // ---------- the actions as a journal

  datatype Post = Post(buf: nat, op: BlkReq, d0: nat, d1: nat, d2: nat)

  /** The calls of virtio_disk_rw, in order. */
  function Posts(acts: seq<Action>): seq<Post>
    decreases |acts|
  {
    if acts == [] then []
    else
      var n := |acts| - 1;
      var a := acts[n];
      Posts(acts[..n]) + (if a.Submit? then [Post(a.b, a.op, a.d0, a.d1, a.d2)] else [])
  }

  /** The requests the device has finished, in order, named by the heads of their chains. */
  function Completions(acts: seq<Action>): seq<nat>
    decreases |acts|
  {
    if acts == [] then []
    else
      var n := |acts| - 1;
      Completions(acts[..n]) + (if acts[n].Complete? then [acts[n].h] else [])
  }

  /** How many requests the device has read. */
  function Takes(acts: seq<Action>): nat
    decreases |acts|
  {
    if acts == [] then 0 else Takes(acts[..|acts| - 1]) + (if acts[|acts| - 1].Take? then 1 else 0)
  }

  /** How many completions the interrupt handler has dealt with. */
  function Handled(acts: seq<Action>): nat
    decreases |acts|
  {
    if acts == [] then 0 else Handled(acts[..|acts| - 1]) + (if acts[|acts| - 1].Intr? then 1 else 0)
  }

  datatype MaybePost = None | Some(post: Post)

  /** The latest request whose chain starts at h. */
  function Latest(posts: seq<Post>, h: nat): (r: MaybePost)
    ensures r.Some? ==> r.post in posts && r.post.d0 == h
  {
    if posts == [] then None
    else if posts[|posts| - 1].d0 == h then Some(posts[|posts| - 1])
    else Latest(posts[..|posts| - 1], h)
  }

  /** The buffers handed to the device whose completion the driver has not handled yet. */
  function BusyAfter(acts: seq<Action>): set<nat>
    decreases |acts|
  {
    if acts == [] then {}
    else
      var n := |acts| - 1;
      var before := acts[..n];
      match acts[n]
      case Submit(b, _, _, _, _) => BusyAfter(before) + {b}
      case Intr => BusyAfter(before) - Returned(before)
      case _ => BusyAfter(before)
  }

  /** The buffer of the oldest completion that has not been handled. */
  function Returned(acts: seq<Action>): set<nat> {
    var k, done := Handled(acts), Completions(acts);
    if k < |done| && Latest(Posts(acts), done[k]).Some? then {Latest(Posts(acts), done[k]).post.buf} else {}
  }

  /** The descriptors of the requests that virtio_disk_rw has not finished. */
  function UsedAfter(acts: seq<Action>): set<nat>
    decreases |acts|
  {
    if acts == [] then {}
    else
      var n := |acts| - 1;
      var before := acts[..n];
      match acts[n]
      case Submit(_, _, d0, d1, d2) => UsedAfter(before) + {d0, d1, d2}
      case Finish(h) =>
        var r := Latest(Posts(before), h);
        if r.Some? then UsedAfter(before) - {h, r.post.d1, r.post.d2} else UsedAfter(before)
      case _ => UsedAfter(before)
  }

  // ---------- the state agrees with the journal

  predicate Recorded(posts: seq<Post>, reqs: map<nat, Req>, h: nat)
    requires h in reqs
  {
    Latest(posts, h) == Some(Post(reqs[h].buf, reqs[h].op, h, reqs[h].mid, reqs[h].last))
  }

  /** Requests in flight are the latest ones of their heads. */
  ghost predicate AllRecorded(posts: seq<Post>, reqs: map<nat, Req>) {
    forall h :: h in reqs ==> Recorded(posts, reqs, h)
  }

  /** What the device has not read yet is the rest of the journal. */
  ghost predicate Unread(posts: seq<Post>, pending: seq<nat>, taken: nat) {
    && |posts| == taken + |pending|
    && forall i :: 0 <= i < |pending| ==> Latest(posts, pending[i]) == Some(posts[taken + i])
  }

  ghost predicate Agrees(acts: seq<Action>, s: Disk) {
    && Shape(s)
    && AllRecorded(Posts(acts), s.reqs) && Unread(Posts(acts), s.pending, Takes(acts)) && s.taken == Takes(acts)
    && |Completions(acts)| == Handled(acts) + |s.finished| && s.finished == Completions(acts)[Handled(acts)..]
    && s.busy == BusyAfter(acts)
    && forall d :: 0 <= d < NUM ==> (s.free[d] <==> d !in UsedAfter(acts))
  }

  lemma Journal(acts: seq<Action>, a: Action)
    ensures var more := acts + [a];
      && Posts(more) == (if a.Submit? then Posts(acts) + [Post(a.b, a.op, a.d0, a.d1, a.d2)] else Posts(acts))
      && Completions(more) == (if a.Complete? then Completions(acts) + [a.h] else Completions(acts))
      && Takes(more) == Takes(acts) + (if a.Take? then 1 else 0)
      && Handled(more) == Handled(acts) + (if a.Intr? then 1 else 0)
      && (a.Take? || a.Complete? || a.Finish? ==> BusyAfter(more) == BusyAfter(acts))
      && (a.Take? || a.Complete? || a.Intr? ==> UsedAfter(more) == UsedAfter(acts))
  {
    assert (acts + [a])[..|acts|] == acts;
  }

  lemma PostsMore(posts: seq<Post>, p: Post, h: nat)
    ensures Latest(posts + [p], h) == if p.d0 == h then Some(p) else Latest(posts, h)
  {
    assert (posts + [p])[..|posts|] == posts;
  }

  lemma SubmitAgrees(acts: seq<Action>, s: Disk, a: Action)
    requires Inv(s) && Enabled(s, a) && a.Submit? && Agrees(acts, s)
    ensures Agrees(acts + [a], Apply(s, a))
  {
    hide Inv, Posts, Completions, Takes, Handled, Latest;
    SubmitRing(s, a.b, a.op, a.d0, a.d1, a.d2);
    PendingHeads(s);
    Journal(acts, a);
    var s' := Apply(s, a);
    var posts, p := Posts(acts), Post(a.b, a.op, a.d0, a.d1, a.d2);
    forall h | h in s'.reqs
      ensures Recorded(posts + [p], s'.reqs, h)
    {
      PostsMore(posts, p, h);
      assert h != a.d0 ==> Recorded(posts, s.reqs, h);
    }
    forall i | 0 <= i < |s'.pending|
      ensures Latest(posts + [p], s'.pending[i]) == Some((posts + [p])[s.taken + i])
    {
      PostsMore(posts, p, s'.pending[i]);
    }
  }

  lemma PendingHeads(s: Disk)
    requires Inv(s)
    ensures forall i :: 0 <= i < |s.pending| ==> s.pending[i] in s.reqs
    ensures forall i :: 0 <= i < |s.finished| ==> s.finished[i] in s.reqs
  {
  }

  lemma TakeAgrees(acts: seq<Action>, s: Disk)
    requires Inv(s) && Enabled(s, Take) && Agrees(acts, s)
    ensures Agrees(acts + [Take], Apply(s, Take))
  {
    hide Inv, Posts, Completions, Takes, Handled, Latest;
    PendingHead(s);
    var a := Take;
    Journal(acts, a);
    var s' := Apply(s, Take);
    forall h | h in s'.reqs
      ensures Recorded(Posts(acts), s'.reqs, h)
    {
      assert Recorded(Posts(acts), s.reqs, h);
    }
  }

  lemma CompleteAgrees(acts: seq<Action>, s: Disk, h: nat)
    requires Inv(s) && Enabled(s, Complete(h)) && Agrees(acts, s)
    ensures Agrees(acts + [Complete(h)], Apply(s, Complete(h)))
  {
    hide Inv, Posts, Completions, Takes, Handled, Latest;
    CompleteRing(s, h);
    var a := Complete(h);
    Journal(acts, a);
    var s' := Apply(s, a);
    var done, k := Completions(acts), Handled(acts);
    assert (done + [h])[k..] == done[k..] + [h];
    forall r | r in s'.reqs
      ensures Recorded(Posts(acts), s'.reqs, r)
    {
      assert Recorded(Posts(acts), s.reqs, r);
    }
  }

  lemma IntrAgrees(acts: seq<Action>, s: Disk)
    requires Inv(s) && Enabled(s, Intr) && Agrees(acts, s)
    ensures Agrees(acts + [Intr], Apply(s, Intr))
  {
    hide Inv, Posts, Completions, Takes, Handled, Latest;
    IntrClearsOwnBuffer(s);
    IntrFinds(s);
    var a := Intr;
    Journal(acts, a);
    var s' := Apply(s, a);
    var h := s.finished[0];
    assert h == Completions(acts)[Handled(acts)] && Recorded(Posts(acts), s.reqs, h);
    forall k | k in s'.reqs
      ensures Recorded(Posts(acts), s'.reqs, k)
    {
      assert Recorded(Posts(acts), s.reqs, k);
    }
  }

  lemma FinishAgrees(acts: seq<Action>, s: Disk, h: nat)
    requires Inv(s) && Enabled(s, Finish(h)) && Agrees(acts, s)
    ensures Agrees(acts + [Finish(h)], Apply(s, Finish(h)))
  {
    hide Inv, Posts, Completions, Takes, Handled, Latest;
    FinishFacts(s, h);
    var a := Finish(h);
    Journal(acts, a);
    var s' := Apply(s, a);
    assert Recorded(Posts(acts), s.reqs, h);
    forall k | k in s'.reqs
      ensures Recorded(Posts(acts), s'.reqs, k)
    {
      assert Recorded(Posts(acts), s.reqs, k);
    }
  }

  lemma {:induction false} RunAgrees(acts: seq<Action>, s: Disk)
    requires Run(acts) == Reached(s)
    ensures Inv(s) && Agrees(acts, s)
    decreases |acts|
  {
    hide Inv, Enabled, Apply, Agrees;
    RunKeepsInv(acts, s);
    if acts == [] {
      AgreesAtReset();
    } else {
      var n := |acts| - 1;
      var before, t := acts[..n], Run(acts[..n]).state;
      RunAgrees(before, t);
      assert acts == before + [acts[n]];
      match acts[n]
      case Submit(_, _, _, _, _) => SubmitAgrees(before, t, acts[n]);
      case Take => TakeAgrees(before, t);
      case Complete(h) => CompleteAgrees(before, t, h);
      case Intr => IntrAgrees(before, t);
      case Finish(h) => FinishAgrees(before, t, h);
    }
  }

  lemma AgreesAtReset()
    ensures Agrees([], Reset())
  {
  }

  // ---------- what that means

  /**
    In every run the k-th request the device reads is the k-th call of virtio_disk_rw: it finds the command and
    sector of that call, its buffer, writable by the device exactly for a read, and the status byte of its head.
   */
  lemma DeviceReadsPosts(acts: seq<Action>, s: Disk)
    requires Run(acts) == Reached(s)
    ensures Shape(s) && (Enabled(s, Take) <==> Takes(acts) < |Posts(acts)|)
    ensures Enabled(s, Take) ==> var p := Posts(acts)[Takes(acts)];
      s.avail[Takes(acts) % NUM] == p.d0 && Reads(s, p.d0, Seen(p.op, p.buf, !p.op.write, p.d0))
  {
    RunAgrees(acts, s);
    PendingCount(s);
    hide Inv, Reads;
    if Enabled(s, Take) {
      DeviceSeesRequest(s);
      assert Recorded(Posts(acts), s.reqs, s.pending[0]);
      assert Latest(Posts(acts), s.pending[0]) == Some(Posts(acts)[s.taken + 0]);
    }
  }

  lemma PendingCount(s: Disk)
    requires Inv(s)
    ensures s.posted == s.taken + |s.pending|
  {
  }

  /** In every run the driver handles completions in the order in which the device made them, each once. */
  lemma CompletionsInOrder(acts: seq<Action>, s: Disk)
    requires Run(acts) == Reached(s)
    ensures Shape(s) && (Enabled(s, Intr) <==> Handled(acts) < |Completions(acts)|)
    ensures Enabled(s, Intr) ==> s.used[s.lastUsed % NUM] == Completions(acts)[Handled(acts)]
  {
    RunAgrees(acts, s);
    IntrPending(s);
    if Enabled(s, Intr) {
      IntrFinds(s);
    }
  }

  /** In every run exactly these buffers are busy and exactly these descriptors are not free. */
  lemma JournalExact(acts: seq<Action>, s: Disk)
    requires Run(acts) == Reached(s)
    ensures Shape(s) && s.busy == BusyAfter(acts) && forall d :: 0 <= d < NUM ==> (s.free[d] <==> d !in UsedAfter(acts))
  {
    RunAgrees(acts, s);
  }

  // ---------- one request

  lemma Extend(acts: seq<Action>, s: Disk, a: Action)
    requires Run(acts) == Reached(s) && Shape(s) && Enabled(s, a)
    ensures Inv(s) && Inv(Apply(s, a)) && Run(acts + [a]) == Reached(Apply(s, a))
  {
    hide Inv, Enabled, Apply;
    RunKeepsInv(acts, s);
    StepKeepsInv(s, a);
    assert (acts + [a])[..|acts|] == acts;
  }

  /** A request on the idle disk goes all the way: posted, read, completed, announced and finished. */
  lemma OneRequest(b: nat, op: BlkReq) returns (acts: seq<Action>, s: Disk)
    ensures Run(acts) == Reached(s) && Posts(acts) == [Post(b, op, 0, 1, 2)] && Completions(acts) == [0]
    ensures Shape(s) && s.busy == {} && s.free == Reset().free && s.desc == Reset().desc
  {
    hide Run, Inv;
    var s0 := Reset();
    assert Run([]) == Reached(s0) by { RunStart(); }
    acts := [Submit(b, op, 0, 1, 2)];
    Extend([], s0, acts[0]);
    assert [] + acts == acts;
    var s1 := DoSubmit(s0, b, op, 0, 1, 2);
    Extend(acts, s1, Take);
    var s2 := DoTake(s1);
    Extend(acts + [Take], s2, Complete(0));
    var s3 := DoComplete(s2, 0);
    Extend(acts + [Take] + [Complete(0)], s3, Intr);
    var s4 := DoIntr(s3);
    Extend(acts + [Take] + [Complete(0)] + [Intr], s4, Finish(0));
    s := DoFinish(s4, 0);
    acts := acts + [Take] + [Complete(0)] + [Intr] + [Finish(0)];
    Journals(b, op);
    assert s.busy == {};
  }

  lemma RunStart()
    ensures Run([]) == Reached(Reset())
  {
  }

  lemma Journals(b: nat, op: BlkReq)
    ensures var acts := [Submit(b, op, 0, 1, 2)] + [Take] + [Complete(0)] + [Intr] + [Finish(0)];
      Posts(acts) == [Post(b, op, 0, 1, 2)] && Completions(acts) == [0]
  {
    var a := [Submit(b, op, 0, 1, 2)];
    Journal([], a[0]);
    assert [] + a == a;
    Journal(a, Take);
    Journal(a + [Take], Complete(0));
    Journal(a + [Take] + [Complete(0)], Intr);
    Journal(a + [Take] + [Complete(0)] + [Intr], Finish(0));
    assert Posts([]) == [] && Completions([]) == [];
  }
}
