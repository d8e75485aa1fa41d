/** What an interrupted download keeps, and how many attempts complete it. */
module Resumption {
  import opened Options
  import opened Manifest
  import opened FileTree
  import opened Store

  /** Nothing is asked of the network exactly when an object of the right name and size is there. */
  lemma CachedExactly(hash: Hash, d: Disk, e: Entry)
    ensures (forall x :: Fetch(hash, d, e, x) == (d, Some(0))) <==>
            e.checksum in d.objects && |d.objects[e.checksum].content| == e.size
  {
    if !Cached(d.objects, e) {
      assert Fetch(hash, d, e, NoReply) == (d, None);
    }
  }

  /** An honest reply to an attempt that can be resumed or started is stored, or leaves in the part file what was
      there and all the bytes that arrived after it. */
  lemma PartKeepsBytes(hash: Hash, d: Disk, e: Entry, content: Content, x: Exchange)
    requires !Cached(d.objects, e) && x.Reply?
    requires (|Part(d, e.checksum)| < |content| || content == []) && Honest(content, |Part(d, e.checksum)|, x)
    ensures var (d1, r) := Fetch(hash, d, e, x);
            && (x.fault == CutBody ==> r == None)
            && (r == None ==> d1.objects == d.objects && e.checksum in d1.parts)
            && (r == None ==> d1.parts[e.checksum] ==
                                if content == [] then []
                                else Part(d, e.checksum)
                                     + content[|Part(d, e.checksum)|..|Part(d, e.checksum)| + |x.body|])
  {
    var part := Part(d, e.checksum);
    if content != [] {
      assert x.body == content[|part|..][..|x.body|] == content[|part|..|part| + |x.body|];
      assert part == [] ==> [] + x.body == part + x.body;
    }
  }

  /** So a transfer that breaks off extends a prefix of the content by the bytes that arrived. */
  lemma CutKeepsBytes(hash: Hash, d: Disk, e: Entry, content: Content, x: Exchange)
    requires !Cached(d.objects, e) && x.Reply? && x.fault == CutBody
    requires Part(d, e.checksum) <= content && (Part(d, e.checksum) != content || content == [])
    requires Honest(content, |Part(d, e.checksum)|, x)
    ensures var part := Part(d, e.checksum);
            |part| + |x.body| <= |content|
            && Fetch(hash, d, e, x) == (d.(parts := d.parts[e.checksum := content[..|part| + |x.body|]]), None)
  {
    var part := Part(d, e.checksum);
    PartKeepsBytes(hash, d, e, content, x);
    assert part + content[|part|..|part| + |x.body|] == content[..|part| + |x.body|];
  }

  /** A reply in full starts over, whatever the part file held. */
  lemma FullReplyRestarts(hash: Hash, d: Disk, e: Entry, content: Content, stamp: int)
    requires !Cached(d.objects, e) && ObjectEntry(hash, e, content)
    ensures var (d1, r) := Fetch(hash, d, e, Reply(200, content, NoFault, stamp));
            && r == Some(|content|) && e.checksum !in d1.parts
            && d1.objects == d.objects[e.checksum := Obj(content, 0x1A4, stamp)]
  {
    assert [] + content == content;
  }

  /** An attempt that brings at least one byte, and does not break off after the last one. */
  predicate Delivers(content: Content, part: Content, x: Exchange)
  {
    && x.Reply? && Honest(content, |part|, x) && x.body != []
    && (x.fault == NoFault || (x.fault == CutBody && |part| + |x.body| < |content|))
  }

  predicate HasObject(d: Disk, e: Entry, content: Content)
  {
    e.checksum in d.objects && d.objects[e.checksum].content == content
  }

  lemma DeliversStep(hash: Hash, d: Disk, e: Entry, content: Content, x: Exchange)
    requires ObjectEntry(hash, e, content) && CollisionFree(hash, content) && !Cached(d.objects, e)
    requires Part(d, e.checksum) < content && Delivers(content, Part(d, e.checksum), x)
    ensures var d1 := Fetch(hash, d, e, x).0;
            HasObject(d1, e, content)
            || (!Cached(d1.objects, e) && Part(d1, e.checksum) < content
                && |Part(d1, e.checksum)| > |Part(d, e.checksum)|)
  {
    if x.fault == NoFault {
      ResumeExact(hash, d, e, content, x);
    } else {
      CutKeepsBytes(hash, d, e, content, x);
    }
  }

  /** As many attempts that each bring a byte as there are bytes missing complete the object. */
  lemma {:induction false} AttemptsComplete(hash: Hash, d: Disk, e: Entry, content: Content, xs: seq<Exchange>)
    requires ObjectEntry(hash, e, content) && CollisionFree(hash, content) && !Cached(d.objects, e)
    requires Part(d, e.checksum) < content
    requires forall i | 0 <= i < |xs| ::
               var now := Attempts(hash, d, e, xs[..i]);
               Cached(now.objects, e) || Delivers(content, Part(now, e.checksum), xs[i])
    ensures var end := Attempts(hash, d, e, xs);
            HasObject(end, e, content)
            || (!Cached(end.objects, e) && Part(end, e.checksum) < content
                && |Part(end, e.checksum)| >= |Part(d, e.checksum)| + |xs|)
    ensures |xs| >= |content| - |Part(d, e.checksum)| ==> HasObject(Attempts(hash, d, e, xs), e, content)
  {
    if xs != [] {
      var init, x := xs[..|xs| - 1], xs[|xs| - 1];
      forall i | 0 <= i < |init|
        ensures var now := Attempts(hash, d, e, init[..i]);
                Cached(now.objects, e) || Delivers(content, Part(now, e.checksum), init[i])
      {
        assert xs[..i] == init[..i] && xs[i] == init[i];
      }
      AttemptsComplete(hash, d, e, content, init);
      var now := Attempts(hash, d, e, init);
      assert xs[..|xs| - 1] == init;
      if !HasObject(now, e, content) {
        DeliversStep(hash, now, e, content, x);
      }
    }
  }
}
