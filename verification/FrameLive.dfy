/** The backward loop finds exactly the locations whose words are still needed:
    those with a path to a use on which nothing overwrites them. */
module FrameLive {
  import opened FrameTransfer
  import opened FrameMachine
  import opened FrameProgram

  /** Instruction k reads l, and no instruction before it overwrites l. */
  ghost predicate UsedAt(code: seq<Instr>, l: Loc, k: nat) {
    k < |code| && l in Uses(code[k]) && forall j :: 0 <= j < k ==> l !in Kills(code[j])
  }

  ghost predicate Used(code: seq<Instr>, l: Loc) { exists k: nat :: UsedAt(code, l, k) }

  ghost predicate Clean(code: seq<Instr>, l: Loc) { forall j :: 0 <= j < |code| ==> l !in Kills(code[j]) }

  lemma {:induction false} LiveThroughIff(code: seq<Instr>, after: set<Loc>, l: Loc)
    ensures l in LiveThrough(code, after) <==> Used(code, l) || (l in after && Clean(code, l))
  {
    if code != [] {
      var rest := code[1..];
      LiveThroughIff(rest, after, l);
      FirstOrLater(code, l);
    }
  }

  lemma FirstOrLater(code: seq<Instr>, l: Loc)
    requires code != []
    ensures Used(code, l) <==> l in Uses(code[0]) || (l !in Kills(code[0]) && Used(code[1..], l))
    ensures Clean(code, l) <==> l !in Kills(code[0]) && Clean(code[1..], l)
  {
    var rest := code[1..];
    assert forall j :: 0 < j < |code| ==> code[j] == rest[j - 1];
    if l in Uses(code[0]) {
      assert UsedAt(code, l, 0);
    } else {
      if Used(code, l) {
        var k: nat :| UsedAt(code, l, k);
        assert UsedAt(rest, l, k - 1);
      }
      if l !in Kills(code[0]) && Used(rest, l) {
        var k: nat :| UsedAt(rest, l, k);
        assert UsedAt(code, l, k + 1);
      }
    }
    if Clean(code, l) {
      assert l !in Kills(code[0]);
      forall j | 0 <= j < |rest|
        ensures l !in Kills(rest[j])
      {
        assert rest[j] == code[j + 1];
      }
    }
  }

  /** A path of blocks that ends in a use of l and overwrites it nowhere before. */
  ghost predicate Needs(p: Program, bs: seq<nat>, l: Loc)
    requires p.Valid()
  {
    && bs != [] && (forall i :: 0 <= i < |bs| ==> bs[i] < |p.blocks|)
    && (forall i :: 0 <= i < |bs| - 1 ==> bs[i + 1] in p.blocks[bs[i]].succs && Clean(p.Code(bs[i]), l))
    && Used(p.Code(bs[|bs| - 1]), l)
  }

  ghost predicate Needed(p: Program, b: nat, l: Loc)
    requires p.Valid()
  {
    exists bs :: Needs(p, bs, l) && bs[0] == b
  }

  lemma NeededHere(p: Program, b: nat, l: Loc)
    requires p.Valid() && b < |p.blocks| && Used(p.Code(b), l)
    ensures Needed(p, b, l)
  {
    assert Needs(p, [b], l) && [b][0] == b;
  }

  lemma NeededBelow(p: Program, b: nat, c: nat, l: Loc)
    requires p.Valid() && b < |p.blocks| && c in p.blocks[b].succs && Clean(p.Code(b), l) && Needed(p, c, l)
    ensures Needed(p, b, l)
  {
    var bs :| Needs(p, bs, l) && bs[0] == c;
    var path := [b] + bs;
    assert forall i :: 0 < i < |path| ==> path[i] == bs[i - 1];
    assert Needs(p, path, l) && path[0] == b;
  }

  // ----- no more than that -----

  ghost function AllNeeded(p: Program): seq<set<Loc>>
    requires p.Valid()
  {
    seq(|p.blocks|, b requires 0 <= b < |p.blocks| => set l | l in Universe(|p.fi.roots|) && Needed(p, b, l))
  }

  lemma AllNeededHolds(p: Program, order: seq<nat>)
    requires p.Valid()
    ensures Bounds(p, order, AllNeeded(p))
  {
    var t := AllNeeded(p);
    forall b | b in order && 0 <= b < |p.blocks|
      ensures LiveInto(p, t, b) <= t[b]
    {
      LiveIntoGrows(p, t, t, b);
      forall l | l in LiveInto(p, t, b)
        ensures l in t[b]
      {
        LiveThroughIff(p.Code(b), LiveOut(p, t, b), l);
        if Used(p.Code(b), l) {
          NeededHere(p, b, l);
        } else {
          var j :| 0 <= j < |p.blocks[b].succs| && l in t[p.blocks[b].succs[j]];
          NeededBelow(p, b, p.blocks[b].succs[j], l);
        }
      }
    }
  }

  // ----- and all of it -----

  lemma {:induction false} NeededIsLive(p: Program, order: seq<nat>, live: seq<set<Loc>>, bs: seq<nat>, l: Loc)
    requires p.Valid() && LiveStable(p, order, live) && Covers(p, order) && Needs(p, bs, l) && bs[0] in order
    ensures l in live[bs[0]]
    decreases |bs|
  {
    hide Used, Clean, LiveThrough;
    var b := bs[0];
    LiveThroughIff(p.Code(b), LiveOut(p, live, b), l);
    if |bs| > 1 {
      var rest := bs[1..];
      assert rest[|rest| - 1] == bs[|bs| - 1] && forall i :: 0 <= i < |rest| ==> rest[i] == bs[i + 1];
      assert Needs(p, rest, l);
      var j :| 0 <= j < |p.blocks[b].succs| && p.blocks[b].succs[j] == bs[1];
      NeededIsLive(p, order, live, rest, l);
      assert l in live[p.blocks[b].succs[j]];
      assert l in LiveOut(p, live, b);
    }
  }

  /** What the loop ends with is exact for every visited block. */
  lemma LivenessIsExact(p: Program, order: seq<nat>, live: seq<set<Loc>>, b: nat, l: Loc)
    requires p.Valid() && Covers(p, order) && LiveStable(p, order, live) && LeastLive(p, order, live)
    requires b in order && b < |p.blocks|
    ensures l in live[b] <==> Needed(p, b, l)
  {
    AllNeededHolds(p, order);
    if Needed(p, b, l) {
      var bs :| Needs(p, bs, l) && bs[0] == b;
      NeededIsLive(p, order, live, bs, l);
    }
    assert Below(live, AllNeeded(p));
  }
}
