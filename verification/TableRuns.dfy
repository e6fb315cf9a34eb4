/** Runs of one page table against a finite map: any sequence of calls is answered as the map would answer it. */
module TableRuns {
  import opened Bytes
  import opened Results
  import opened Pools
  import opened Physical
  import opened Sv39
  import opened Tree
  import opened TableState
  import opened PageTables
  import opened Snapshots

  datatype Call =
    | Map(vpn: nat, flags: Byte)
    | Unmap(vpn: nat)
    | MapFixed(vpn: nat, ppn: nat, flags: Byte)
    | UnmapFixed(vpn: nat)

  /** The plain state a table stands for: where pages lead, and the frames kept for them. */
  datatype Plan = Plan(view: map<nat, Mapping>, trackers: map<nat, nat>)

  /** What the frame allocator had to offer during a call. */
  datatype Supply = NoFrame | FrameOnly | Enough(frame: nat)

  predicate InBounds(c: Call) {
    c.MapFixed? ==> c.ppn < PPN_LIMIT
  }

  /** The answer to a call, and the state after it, with no tree in sight. Frames are kept by the full page number. */
  function Answer(p: Plan, c: Call, given: Supply): (Plan, Result<nat>) {
    var v := PageOf(c.vpn);
    match c
    case Map(vpn, flags) =>
      if flags == 0 then (p, Err(InvalidPageTablePerm(0)))
      else if given.NoFrame? then (p, Err(FrameExhausted))
      else if v in p.view then (p, Err(VPNAlreadyMapped(vpn)))
      else if given.FrameOnly? then (p, Err(FrameExhausted))
      else (Plan(p.view[v := Plain(given.frame, WithValid(flags))], p.trackers[vpn := given.frame]),
            if vpn in p.trackers then Err(VPNAlreadyMapped(vpn)) else Ok(given.frame))
    case Unmap(vpn) =>
      if v !in p.view then (p, Err(VPNNotMapped(vpn)))
      else (Plan(p.view - {v}, p.trackers - {vpn}), if vpn in p.trackers then Ok(p.view[v].ppn)
      else Err(VPNNotMapped(vpn)))
    case MapFixed(vpn, ppn, flags) =>
      if v in p.view then (p, Err(VPNAlreadyMapped(vpn)))
      else if !given.Enough? then (p, Err(FrameExhausted))
      else (p.(view := p.view[v := Plain(ppn, WithValid(flags))]), Ok(ppn))
    case UnmapFixed(vpn) =>
      if v !in p.view then (p, Err(VPNNotMapped(vpn))) else (p.(view := p.view - {v}), Ok(p.view[v].ppn))
  }

  /**
   The bytes kept after a call: a page newly mapped is clear, those of a page unmapped are gone, and no others change.
   */
  function BytesAfter(bytes: map<nat, Frame>, p: Plan, c: Call, given: Supply): map<nat, Frame> {
    match c
    case Map(vpn, flags) =>
      if flags != 0 && given.Enough? && PageOf(vpn) !in p.view then bytes[vpn := ZeroFrame()] else bytes
    case Unmap(vpn) => if PageOf(vpn) in p.view then bytes - {vpn} else bytes
    case _ => bytes
  }

  /** What a call on `vpn` may change: the entry of its page, and the frame kept for the number. */
  function PagesAt(vpn: nat): set<nat> {
    {vpn, PageOf(vpn)}
  }

  /** A table and the memory around it, as one value. */
  datatype Stand = Stand(now: Table, mem: Memory, free: set<nat>, live: set<nat>, limit: nat)

  ghost function StandOf(pt: PageTable): Stand
    reads pt, pt.phys
  {
    Stand(pt.Now(), pt.phys.frames, pt.phys.Free(), pt.phys.Live(), pt.phys.pool.limit)
  }

  ghost function PlanOf(a: Stand): Plan {
    Plan(Translation(a.mem, a.now), a.now.trackers)
  }

  /** The bytes of the pages that have a frame of their own. */
  ghost function BytesAt(mem: Memory, trackers: map<nat, nat>): map<nat, Frame> {
    map v | v in trackers :: FrameAt(mem, trackers[v])
  }

  ghost function BytesIn(a: Stand): map<nat, Frame> {
    BytesAt(a.mem, a.now.trackers)
  }

  ghost function ShotIn(a: Stand): Shot {
    Shot(Translation(a.mem, a.now), a.now.trackers, a.now.at.Keys, Claim(Owned(a.now), a.free, a.live), a.mem)
  }

  /** The supply is what the machine had: `Enough` exactly when the mappers missing, and the page if need be,
    could be given frames. */
  ghost predicate Supplied(a: Stand, c: Call, given: Supply) {
    var v := PageOf(c.vpn);
    match c
    case Map(_, _) =>
      && (given.NoFrame? <==> a.free == {})
      && (given.Enough? ==> given.frame in a.free)
      && (v !in PlanOf(a).view ==> (given.Enough? <==> |a.free| > |NodesOf(v) - a.now.at.Keys|))
    case MapFixed(_, _, _) => v !in PlanOf(a).view ==> (given.Enough? <==> |a.free| >= |NodesOf(v) - a.now.at.Keys|)
    case _ => true
  }

  /** A mapper that stays is where it was. */
  ghost predicate Unmoved(a: Placement, b: Placement) {
    forall n :: n in a && n in b ==> b[n] == a[n]
  }

  /** The call was answered as the plain state answers it, and touched only its page and frames owned or free. */
  ghost predicate Did(a: Stand, b: Stand, c: Call, r: Result<nat>, given: Supply) {
    && b.limit == a.limit && Supplied(a, c, given)
    && (PlanOf(b), r) == Answer(PlanOf(a), c, given) && BytesIn(b) == BytesAfter(BytesIn(a), PlanOf(a), c, given)
    && Steps(ShotIn(a), ShotIn(b), PagesAt(c.vpn)) && Unmoved(a.now.at, b.now.at)
    && (Tight(a.mem, a.now) && r != Err(FrameExhausted) ==> Tight(b.mem, b.now))
  }

  lemma TightStays(mem: Memory, t: Table, mem': Memory, t': Table)
    requires Tight(mem, t) && t'.at.Keys <= t.at.Keys && Translation(mem', t') == Translation(mem, t)
    ensures Tight(mem', t')
  {
    hide Translation, NodesOf;
  }

  lemma NodesThere(mem: Memory, live: set<nat>, t: Table, v: nat)
    requires Sound(mem, live, t) && v in Translation(mem, t)
    ensures NodesOf(v) <= t.at.Keys
  {
    hide Sound, Translation;
    TranslationBelowLimit(mem, t, v);
    MappedHasNodes(mem, live, t, v);
  }

  /** What all calls have in common in what they leave alone. */
  ghost predicate Local(a: Stand, b: Stand) {
    && a.free !! a.live && Sound(a.mem, a.live, a.now) && b.limit == a.limit
    && Unmoved(a.now.at, b.now.at) && SameOutside(a.mem, b.mem, a.now.at.Values + a.free)
    && Settled(Claim(Owned(a.now), a.free, a.live), Claim(Owned(b.now), b.free, b.live))
  }

  lemma LocalSteps(a: Stand, b: Stand, pages: set<nat>)
    requires Local(a, b) && PlanOf(b).view - pages == PlanOf(a).view - pages
    requires b.now.trackers - pages == a.now.trackers - pages
    ensures Steps(ShotIn(a), ShotIn(b), pages)
  {
    hide Sound, Translation, SameOutside, Settled, Owned, Steps;
    StepsIntro(a.now, a.live, a.free, a.mem, ShotIn(a), ShotIn(b), pages);
  }

  /** The frames of pages keep their bytes. */
  lemma LocalBytes(a: Stand, b: Stand)
    requires Local(a, b)
    ensures forall u :: u in a.now.trackers ==> FrameAt(b.mem, a.now.trackers[u]) == FrameAt(a.mem, a.now.trackers[u])
  {
    OwnedParts(a.mem, a.live, a.now);
    hide Sound, Settled;
    forall u | u in a.now.trackers ensures FrameAt(b.mem, a.now.trackers[u]) == FrameAt(a.mem, a.now.trackers[u]) {
      assert a.now.trackers[u] in a.now.trackers.Values;
    }
  }

  lemma SameBytes(a: Stand, b: Stand)
    requires Local(a, b) && b.now.trackers == a.now.trackers
    ensures BytesIn(b) == BytesIn(a)
  {
    LocalBytes(a, b);
    hide Local;
  }

  lemma OneClear(a: Stand, b: Stand, v: nat, p: nat)
    requires Local(a, b) && b.now.trackers == a.now.trackers[v := p] && FrameAt(b.mem, p) == ZeroFrame()
    ensures BytesIn(b) == BytesIn(a)[v := ZeroFrame()]
  {
    LocalBytes(a, b);
    hide Local, ZeroFrame;
  }

  lemma OneGone(a: Stand, b: Stand, v: nat)
    requires Local(a, b) && b.now.trackers == a.now.trackers - {v}
    ensures BytesIn(b) == BytesIn(a) - {v}
  {
    LocalBytes(a, b);
    hide Local;
  }

  ghost predicate Mappable(a: Stand, c: Call)
    requires c.Map?
  {
    c.flags != 0 && PageOf(c.vpn) !in PlanOf(a).view && |a.free| > |NodesOf(PageOf(c.vpn)) - a.now.at.Keys|
  }

  lemma AnswersMap(a: Plan, b: Plan, c: Call, r: Result<nat>, p: nat, bytes: map<nat, Frame>)
    requires c.Map? && c.flags != 0 && PageOf(c.vpn) !in a.view
    requires b == Plan(a.view[PageOf(c.vpn) := Plain(p, WithValid(c.flags))], a.trackers[c.vpn := p])
    requires r == if c.vpn in a.trackers then Err(VPNAlreadyMapped(c.vpn)) else Ok(p)
    ensures (b, r) == Answer(a, c, Enough(p))
    ensures BytesAfter(bytes, a, c, Enough(p)) == bytes[c.vpn := ZeroFrame()]
  {
    hide ZeroFrame, PageOf, WithValid;
  }

  lemma MapSteps(a: Stand, b: Stand, c: Call, p: nat)
    requires c.Map? && Local(a, b)
    requires PlanOf(b) ==
      Plan(PlanOf(a).view[PageOf(c.vpn) := Plain(p, WithValid(c.flags))], a.now.trackers[c.vpn := p])
    ensures Steps(ShotIn(a), ShotIn(b), PagesAt(c.vpn))
  {
    hide Translation, Local, Steps, WithValid, PageOf;
    ChangeWithin(PlanOf(a).view, PageOf(c.vpn), Plain(p, WithValid(c.flags)), PagesAt(c.vpn));
    ChangeWithin(a.now.trackers, c.vpn, p, PagesAt(c.vpn));
    LocalSteps(a, b, PagesAt(c.vpn));
  }

  lemma MapWorked(a: Stand, b: Stand, c: Call, r: Result<nat>, p: nat)
    requires c.Map? && Local(a, b) && Mappable(a, c) && p in a.free
    requires b.now.at.Keys <= a.now.at.Keys + NodesOf(PageOf(c.vpn))
    requires PlanOf(b) ==
      Plan(PlanOf(a).view[PageOf(c.vpn) := Plain(p, WithValid(c.flags))], a.now.trackers[c.vpn := p])
    requires r == if c.vpn in a.now.trackers then Err(VPNAlreadyMapped(c.vpn)) else Ok(p)
    requires FrameAt(b.mem, p) == ZeroFrame()
    ensures Did(a, b, c, r, Enough(p))
  {
    hide Sound, Translation, SameOutside, Settled, Owned, Steps, Tight, WithValid, NodesOf, PageOf, BytesIn, ZeroFrame;
    hide Answer, BytesAfter, PagesAt;
    OneClear(a, b, c.vpn, p);
    MapSteps(a, b, c, p);
    AnswersMap(PlanOf(a), PlanOf(b), c, r, p, BytesIn(a));
    if Tight(a.mem, a.now) {
      TightAfterMap(a.mem, a.now, b.mem, b.now, PageOf(c.vpn), Plain(p, WithValid(c.flags)));
    }
  }

  lemma AnswersRefused(a: Plan, c: Call, r: Result<nat>, given: Supply, none: bool, bytes: map<nat, Frame>)
    requires c.Map? && (given.NoFrame? <==> none) && (c.flags != 0 && PageOf(c.vpn) !in a.view ==> !given.Enough?)
    requires r == Err(if c.flags == 0 then InvalidPageTablePerm(0)
                      else if !none && PageOf(c.vpn) in a.view then VPNAlreadyMapped(c.vpn) else FrameExhausted)
    ensures (a, r) == Answer(a, c, given) && BytesAfter(bytes, a, c, given) == bytes
  {
    hide ZeroFrame, PageOf, WithValid;
  }

  lemma MapRefused(a: Stand, b: Stand, c: Call, r: Result<nat>, reached: set<Node>) returns (given: Supply)
    requires c.Map? && Local(a, b) && !Mappable(a, c) && PlanOf(b) == PlanOf(a)
    requires b.now.at.Keys == a.now.at.Keys + reached && reached <= NodesOf(PageOf(c.vpn))
    requires (c.flags == 0 ==> reached == {})
    requires r == Err(if c.flags == 0 then InvalidPageTablePerm(0)
                      else if a.free != {} && PageOf(c.vpn) in PlanOf(a).view then VPNAlreadyMapped(c.vpn)
                      else FrameExhausted)
    ensures Did(a, b, c, r, given)
  {
    hide Sound, Translation, SameOutside, Settled, Owned, Steps, Tight, WithValid, NodesOf, PageOf, BytesIn, ZeroFrame;
    hide Answer, BytesAfter;
    SameBytes(a, b);
    given := if a.free == {} then NoFrame else FrameOnly;
    if PageOf(c.vpn) !in PlanOf(a).view && |a.free| > |NodesOf(PageOf(c.vpn)) - a.now.at.Keys| {
      assert a.free != {};
      var p :| p in a.free;
      given := Enough(p);
    }
    AnswersRefused(PlanOf(a), c, r, given, a.free == {}, BytesIn(a));
    if Tight(a.mem, a.now) && r != Err(FrameExhausted) {
      if PageOf(c.vpn) in PlanOf(a).view {
        NodesThere(a.mem, a.live, a.now, PageOf(c.vpn));
      }
      TightStays(a.mem, a.now, b.mem, b.now);
    }
    LocalSteps(a, b, PagesAt(c.vpn));
  }

  method PerformMap(pt: PageTable, c: Call) returns (r: Result<nat>, ghost given: Supply)
    requires pt.Valid() && InBounds(c) && c.Map?
    modifies pt, pt.phys
    ensures pt.Valid() && Did(old(StandOf(pt)), StandOf(pt), c, r, given)
  {
    hide Sound, Translation, SameOutside, Settled, Owned, Did, Pool.Free, Pool.Live, Pool.Valid, WithValid, ZeroFrame;
    hide NodesOf;
    ghost var a, reached := StandOf(pt), {};
    pt.FreeNotLive();
    r, reached := pt.Map(c.vpn, c.flags);
    if Mappable(a, c) {
      given := Enough(pt.trackers[c.vpn]);
      MapWorked(a, StandOf(pt), c, r, pt.trackers[c.vpn]);
    } else {
      given := MapRefused(a, StandOf(pt), c, r, reached);
    }
  }

  lemma UnmapBytes(a: Stand, b: Stand, c: Call, r: Result<nat>)
    requires (c.Unmap? || c.UnmapFixed?) && Local(a, b) && (PlanOf(b), r) == Answer(PlanOf(a), c, NoFrame)
    ensures BytesIn(b) == BytesAfter(BytesIn(a), PlanOf(a), c, NoFrame)
  {
    hide Local, BytesIn, Translation, PageOf;
    if c.Unmap? && PageOf(c.vpn) in PlanOf(a).view {
      OneGone(a, b, c.vpn);
    } else {
      SameBytes(a, b);
    }
  }

  /** `Unmap` and `UnmapFixed`, from their contracts to the answer of the plain state. */
  lemma UnmapDid(a: Stand, b: Stand, c: Call, r: Result<nat>)
    requires (c.Unmap? || c.UnmapFixed?) && Local(a, b) && Sound(b.mem, b.live, b.now) && b.now.at.Keys <= a.now.at.Keys
    requires (PlanOf(b), r) == Answer(PlanOf(a), c, NoFrame) && PlanOf(b).view == PlanOf(a).view - {PageOf(c.vpn)}
    requires b.now.trackers - {c.vpn} == a.now.trackers - {c.vpn}
    requires PageOf(c.vpn) in PlanOf(a).view ==>
      NoneIdle(b.now, PageOf(c.vpn))
    ensures Did(a, b, c, r, NoFrame)
  {
    UnmapBytes(a, b, c, r);
    hide Sound, Translation, SameOutside, Settled, Owned, Steps, Tight, Answer, BytesAfter, BytesIn, NodesOf, Index;
    hide PageOf;
    var v := PageOf(c.vpn);
    WithoutMore(PlanOf(a).view, PlanOf(b).view, v, PagesAt(c.vpn));
    WithoutMore(a.now.trackers, b.now.trackers, c.vpn, PagesAt(c.vpn));
    LocalSteps(a, b, PagesAt(c.vpn));
    if Tight(a.mem, a.now) {
      if v in PlanOf(a).view {
        TightAfterUnmap(a.mem, a.now, b.mem, b.live, b.now, v);
      } else {
        assert PlanOf(a).view - {v} == PlanOf(a).view;
        TightStays(a.mem, a.now, b.mem, b.now);
      }
    }
  }

  lemma WithoutMore<V>(m: map<nat, V>, n: map<nat, V>, v: nat, pages: set<nat>)
    requires v in pages && (n == m - {v} || n - {v} == m - {v})
    ensures n - pages == m - pages
  {
    assert (m - {v}) - pages == m - pages;
    assert (n - {v}) - pages == n - pages;
  }

  method PerformUnmap(pt: PageTable, c: Call) returns (r: Result<nat>)
    requires pt.Valid() && InBounds(c) && c.Unmap?
    modifies pt, pt.phys
    ensures pt.Valid() && Did(old(StandOf(pt)), StandOf(pt), c, r, NoFrame)
  {
    hide Sound, Translation, SameOutside, Settled, Owned, Did, Pool.Free, Pool.Live, Pool.Valid, NodesOf, Index;
    ghost var a, dropped := StandOf(pt), {};
    pt.FreeNotLive();
    WithoutAgain(pt.View(), PageOf(c.vpn));
    WithoutAgain(pt.trackers, c.vpn);
    r, dropped := pt.Unmap(c.vpn);
    UnmapDid(a, StandOf(pt), c, r);
  }

  method PerformUnmapFixed(pt: PageTable, c: Call) returns (r: Result<nat>)
    requires pt.Valid() && InBounds(c) && c.UnmapFixed?
    modifies pt, pt.phys
    ensures pt.Valid() && Did(old(StandOf(pt)), StandOf(pt), c, r, NoFrame)
  {
    hide Sound, Translation, SameOutside, Settled, Owned, Did, Pool.Free, Pool.Live, Pool.Valid, NodesOf, Index;
    ghost var a, dropped := StandOf(pt), {};
    pt.FreeNotLive();
    WithoutAgain(pt.View(), PageOf(c.vpn));
    r, dropped := pt.UnmapFixed(c.vpn);
    UnmapDid(a, StandOf(pt), c, r);
  }

  lemma AnswersFixed(a: Plan, b: Plan, c: Call, r: Result<nat>, given: Supply, bytes: map<nat, Frame>)
    requires c.MapFixed? && (b, r) == Answer(a, c, given)
    ensures b.trackers == a.trackers && BytesAfter(bytes, a, c, given) == bytes
    ensures b.view == if PageOf(c.vpn) in a.view || !given.Enough? then a.view
                      else a.view[PageOf(c.vpn) := Plain(c.ppn, WithValid(c.flags))]
    ensures PageOf(c.vpn) !in a.view && r != Err(FrameExhausted) ==> given.Enough?
  {
    hide PageOf, WithValid;
  }

  lemma MapFixedDid(a: Stand, b: Stand, c: Call, r: Result<nat>, given: Supply, reached: set<Node>)
    requires c.MapFixed? && Local(a, b) && b.now.at.Keys == a.now.at.Keys + reached && reached <= NodesOf(PageOf(c.vpn))
    requires (PlanOf(b), r) == Answer(PlanOf(a), c, given) && Supplied(a, c, given)
    ensures Did(a, b, c, r, given)
  {
    hide Sound, Translation, SameOutside, Settled, Owned, Steps, Tight, WithValid, NodesOf, PageOf, BytesIn, BytesAfter;
    hide Answer;
    AnswersFixed(PlanOf(a), PlanOf(b), c, r, given, BytesIn(a));
    SameBytes(a, b);
    var v := PageOf(c.vpn);
    ChangeWithin(PlanOf(a).view, v, Plain(c.ppn, WithValid(c.flags)), PagesAt(c.vpn));
    LocalSteps(a, b, PagesAt(c.vpn));
    if Tight(a.mem, a.now) && r != Err(FrameExhausted) {
      if v in PlanOf(a).view {
        NodesThere(a.mem, a.live, a.now, v);
        TightStays(a.mem, a.now, b.mem, b.now);
      } else {
        TightAfterMap(a.mem, a.now, b.mem, b.now, v, Plain(c.ppn, WithValid(c.flags)));
      }
    }
  }

  method PerformMapFixed(pt: PageTable, c: Call) returns (r: Result<nat>, ghost given: Supply)
    requires pt.Valid() && InBounds(c) && c.MapFixed?
    modifies pt, pt.phys
    ensures pt.Valid() && Did(old(StandOf(pt)), StandOf(pt), c, r, given)
  {
    hide Sound, Translation, SameOutside, Settled, Owned, Did, Pool.Free, Pool.Live, Pool.Valid, NodesOf, WithValid;
    ghost var a, reached := StandOf(pt), {};
    pt.FreeNotLive();
    given := if |pt.phys.Free()| >= |pt.Missing(PageOf(c.vpn))| then Enough(0) else NoFrame;
    var m;
    m, reached := pt.MapFixed(c.vpn, c.ppn, c.flags);
    r := if m.Ok? then Ok(c.ppn) else Err(m.error);
    MapFixedDid(a, StandOf(pt), c, r, given, reached);
  }

  /** Any one call. */
  method Perform(pt: PageTable, c: Call) returns (r: Result<nat>, ghost given: Supply)
    requires pt.Valid() && InBounds(c)
    modifies pt, pt.phys
    ensures pt.Valid() && Did(old(StandOf(pt)), StandOf(pt), c, r, given)
  {
    hide Sound, Did, Pool.Free, Pool.Live, Pool.Valid;
    given := NoFrame;
    match c
    case Map(_, _) => r, given := PerformMap(pt, c);
    case Unmap(_) => r := PerformUnmap(pt, c);
    case MapFixed(_, _, _) => r, given := PerformMapFixed(pt, c);
    case UnmapFixed(_) => r := PerformUnmapFixed(pt, c);
  }

  // ---------- what runs of calls add up to ----------

  /** With no mapper kept in vain, the translation alone decides which mappers there are. */
  lemma FootprintDetermined(a: Stand, b: Stand)
    requires Sound(a.mem, a.live, a.now) && Tight(a.mem, a.now) && Sound(b.mem, b.live, b.now) && Tight(b.mem, b.now)
    requires PlanOf(a).view.Keys <= PlanOf(b).view.Keys
    ensures a.now.at.Keys <= b.now.at.Keys
    ensures PlanOf(a).view.Keys == PlanOf(b).view.Keys ==> a.now.at.Keys == b.now.at.Keys
  {
    hide Sound, Translation, NodesOf, Tight;
    TightDeterminesNodes(a.mem, a.live, a.now);
    TightDeterminesNodes(b.mem, b.live, b.now);
    forall n | n in a.now.at ensures n in b.now.at {
      if n != Top {
        var v :| v in Translation(a.mem, a.now) && n in NodesOf(v);
        assert v in PlanOf(b).view.Keys;
      }
    }
  }

  /** Mapping a page and unmapping it again gives back every frame, those of new mappers included. */
  lemma MapUnmapRestores(a: Stand, b: Stand, c: Stand, v: nat, flags: Byte, p: nat, given: Supply, r: Result<nat>,
                         given': Supply)
    requires Sound(a.mem, a.live, a.now) && Tight(a.mem, a.now) && a.free !! a.live
    requires Sound(b.mem, b.live, b.now) && b.free !! b.live && Sound(c.mem, c.live, c.now) && c.free !! c.live
    requires Did(a, b, Map(v, flags), Ok(p), given) && Did(b, c, Unmap(v), r, given')
    ensures r == Ok(p) && PlanOf(c) == PlanOf(a) && c.now.at == a.now.at && c.free == a.free && c.live == a.live
  {
    hide Sound, Translation, Tight, Owned, Steps, Supplied;
    AnswersUndo(PlanOf(a), PlanOf(b), PlanOf(c), v, flags, p, given, r, given');
    hide Answer;
    FootprintDetermined(a, c);
    FootprintDetermined(c, b);
    AtRestored(a, b, c);
    OwnedParts(a.mem, a.live, a.now);
    OwnedParts(c.mem, c.live, c.now);
    StepsSettle(ShotIn(a), ShotIn(b), PagesAt(v));
    StepsSettle(ShotIn(b), ShotIn(c), PagesAt(v));
    SettledChain(ShotIn(a).claim, ShotIn(b).claim, ShotIn(c).claim);
    SameClaim(ShotIn(a).claim, ShotIn(c).claim);
  }

  lemma SameClaim(a: Claim, c: Claim)
    requires Settled(a, c) && a.own == c.own && a.own <= a.live && c.own <= c.live && a.free !! a.live
    requires c.free !! c.live
    ensures a == c
  {
    assert c.free == (c.own + c.free) - c.own;
    assert c.live == (c.live - c.own) + c.own;
  }

  lemma AnswersUndo(a: Plan, b: Plan, c: Plan, v: nat, flags: Byte, p: nat, given: Supply, r: Result<nat>,
                    given': Supply)
    requires (b, Ok(p)) == Answer(a, Map(v, flags), given) && (c, r) == Answer(b, Unmap(v), given')
    ensures r == Ok(p) && c == a && a.view.Keys <= b.view.Keys
  {
  }

  lemma AtRestored(a: Stand, b: Stand, c: Stand)
    requires Unmoved(a.now.at, b.now.at) && Unmoved(b.now.at, c.now.at)
    requires a.now.at.Keys == c.now.at.Keys <= b.now.at.Keys
    ensures c.now.at == a.now.at
  {
  }

  /** Three free frames are always enough to map an unmapped page. */
  lemma ThreeFramesSuffice(a: Stand, c: Call)
    requires c.Map? && c.flags != 0 && PageOf(c.vpn) !in PlanOf(a).view && |a.free| >= 3
    ensures Mappable(a, c)
  {
    hide Translation, PageOf;
    var nodes := NodesOf(PageOf(c.vpn));
    assert nodes == {NodeOn(PageOf(c.vpn), 1), NodeOn(PageOf(c.vpn), 2)};
    assert |nodes| <= 2;
    SubsetSize(nodes - a.now.at.Keys, nodes);
  }

  /** The plain state after a run of calls. */
  function After(p: Plan, calls: seq<Call>, given: seq<Supply>): Plan
    requires |given| == |calls|
    decreases |calls|
  {
    if calls == [] then p else After(Answer(p, calls[0], given[0]).0, calls[1..], given[1..])
  }

  ghost predicate SameAt(p: Plan, q: Plan, v: nat) {
    && (v in p.view <==> v in q.view) && (v in p.view ==> q.view[v] == p.view[v])
    && forall u :: PageOf(u) == v ==> SameTracker(p, q, u)
  }

  predicate SameTracker(p: Plan, q: Plan, u: nat) {
    (u in p.trackers <==> u in q.trackers) && (u in p.trackers ==> q.trackers[u] == p.trackers[u])
  }

  /** The calls on page `v`, by whichever number, and what the allocator gave them. */
  function OnPage(calls: seq<Call>, given: seq<Supply>, v: nat): (r: (seq<Call>, seq<Supply>))
    requires |given| == |calls|
    ensures |r.0| == |r.1|
  {
    if calls == [] then ([], [])
    else
      var rest := OnPage(calls[1..], given[1..], v);
      if PageOf(calls[0].vpn) == v then ([calls[0]] + rest.0, [given[0]] + rest.1) else rest
  }

  lemma AnswersAlike(p: Plan, q: Plan, c: Call, given: Supply, v: nat)
    requires SameAt(p, q, v)
    ensures PageOf(c.vpn) == v ==> Answer(p, c, given).1 == Answer(q, c, given).1
    ensures PageOf(c.vpn) == v ==> SameAt(Answer(p, c, given).0, Answer(q, c, given).0, v)
    ensures PageOf(c.vpn) != v ==> SameAt(Answer(p, c, given).0, q, v)
  {
    hide PageOf, WithValid;
    assert PageOf(c.vpn) == v ==> SameTracker(p, q, c.vpn);
  }

  /** What became of a page depends on the calls on that page alone. */
  lemma {:induction false} PagesAreIndependent(p: Plan, q: Plan, calls: seq<Call>, given: seq<Supply>, v: nat)
    requires |given| == |calls| && SameAt(p, q, v)
    ensures SameAt(After(p, calls, given), After(q, OnPage(calls, given, v).0, OnPage(calls, given, v).1), v)
    decreases |calls|
  {
    if calls != [] {
      hide Answer, SameAt, PageOf;
      AnswersAlike(p, q, calls[0], given[0], v);
      var p' := Answer(p, calls[0], given[0]).0;
      var rest := OnPage(calls[1..], given[1..], v);
      if PageOf(calls[0].vpn) == v {
        PagesAreIndependent(p', Answer(q, calls[0], given[0]).0, calls[1..], given[1..], v);
        assert ([calls[0]] + rest.0)[1..] == rest.0 && ([given[0]] + rest.1)[1..] == rest.1;
      } else {
        PagesAreIndependent(p', q, calls[1..], given[1..], v);
      }
    }
  }

  /** A page mapped by a call reads as that call mapped it until the next call on it. */
  lemma ReadsAsMapped(p: Plan, c: Call, first: Supply, frame: nat, calls: seq<Call>, given: seq<Supply>)
    requires |given| == |calls| && (c.Map? || c.MapFixed?) && Answer(p, c, first).1 == Ok(frame)
    requires OnPage(calls, given, PageOf(c.vpn)).0 == []
    ensures var last := After(Answer(p, c, first).0, calls, given);
      PageOf(c.vpn) in last.view && last.view[PageOf(c.vpn)] == Plain(frame, WithValid(c.flags))
  {
    hide PageOf, WithValid;
    var p', v := Answer(p, c, first).0, PageOf(c.vpn);
    assert SameAt(p', p', v) && p'.view[v] == Plain(frame, WithValid(c.flags));
    hide Answer;
    PagesAreIndependent(p', p', calls, given, v);
  }

  /** Every number for which a frame is kept has its page mapped. */
  ghost predicate InStep(p: Plan) {
    forall u :: u in p.trackers ==> PageOf(u) in p.view
  }

  /** The call takes the entry of a page away and leaves a frame that is kept for it, by this number or another one. */
  ghost predicate Severs(p: Plan, c: Call) {
    && (c.Unmap? || c.UnmapFixed?) && PageOf(c.vpn) in p.view
    && exists u :: u in p.trackers && PageOf(u) == PageOf(c.vpn) && (c.UnmapFixed? || u != c.vpn)
  }

  /** Frames stay with mapped pages if and only if no call severs them. */
  lemma StaysInStep(p: Plan, c: Call, given: Supply)
    requires InStep(p)
    ensures InStep(Answer(p, c, given).0) <==> !Severs(p, c)
  {
    hide PageOf, WithValid;
    var q := Answer(p, c, given).0;
    if Severs(p, c) {
      var u :| u in p.trackers && PageOf(u) == PageOf(c.vpn) && (c.UnmapFixed? || u != c.vpn);
      assert u in q.trackers;
    }
  }

  /**
   A page number beyond 2^27 names a page that has a number below: unmapping by it keeps the frame, and reports failure.
   */
  lemma OtherNumberSevers(p: Plan, v: nat, given: Supply)
    requires v < VPN_LIMIT && v in p.view && v in p.trackers && v + VPN_LIMIT !in p.trackers
    ensures Answer(p, Unmap(v + VPN_LIMIT), given) == (Plan(p.view - {v}, p.trackers), Err(VPNNotMapped(v + VPN_LIMIT)))
  {
    assert PageOf(v + VPN_LIMIT) == v;
    assert p.trackers - {v + VPN_LIMIT} == p.trackers;
  }
}
