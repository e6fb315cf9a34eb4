/** The command line that `exec` pushes onto the user stack. */
module ExecArgs {
  import opened Bytes
  import opened Results
  import opened Pools
  import opened Physical
  import opened Sv39
  import opened TableState
  import opened PageTables
  import opened Snapshots
  import opened PageBytes

  const COMMAND_LINE_LIMIT: nat := 512

  /** `va` lies in the page that starts at `base`, or just above it. */
  predicate InPage(base: nat, va: nat) {
    base % PAGE_SIZE == 0 && base <= va <= base + PAGE_SIZE
  }

  /**
   From `s` to `t`, `data` was stored at offset `at` of page `v`, if that page is tracked, and nothing else was written.
   */
  ghost predicate Pushed(s: Shot, t: Shot, v: nat, at: nat, data: seq<Byte>) {
    && Rewrites(s, t, {v}) && at + |data| <= PAGE_SIZE
    && (v in s.trackers ==> v in t.trackers && BytesOf(t, v) == Splice(BytesOf(s, v), at, data))
  }

  lemma PushedNone(s: Shot, v: nat, at: nat)
    requires at <= PAGE_SIZE
    ensures Pushed(s, s, v, at, [])
  {
  }

  /** One piece below another makes one longer piece. */
  lemma PushedBelow(s: Shot, t: Shot, u: Shot, v: nat, at: nat, d: seq<Byte>, e: seq<Byte>)
    requires |e| <= at && Pushed(s, t, v, at, d) && Pushed(t, u, v, at - |e|, e)
    ensures Pushed(s, u, v, at - |e|, e + d)
  {
    hide SameOutside;
    RewritesChain(s, t, u, {v});
    if v in s.trackers {
      SpliceBelow(BytesOf(s, v), at, d, e);
    }
  }

  lemma SpliceBelow(f: seq<Byte>, at: nat, d: seq<Byte>, e: seq<Byte>)
    requires at + |d| <= |f| && |e| <= at
    ensures Splice(Splice(f, at, d), at - |e|, e) == Splice(f, at - |e|, e + d)
  {
  }

  lemma InPageVpn(base: nat, va: nat)
    requires InPage(base, va) && va < base + PAGE_SIZE
    ensures GetVpn(va) == GetVpn(base) && Offset(va) == va - base
  {
    assert va == (base / PAGE_SIZE) * PAGE_SIZE + (va - base);
  }

  /** Stores `data` at `va`, within one page: `translated_refmut` and an assignment. */
  method Poke(pt: PageTable, va: nat, data: seq<Byte>, ghost base: nat) returns (r: Result<()>)
    requires pt.Valid() && InPage(base, va) && data != [] && va + |data| <= base + PAGE_SIZE
    modifies pt.phys`frames
    ensures pt.Valid() && pt.trackers == old(pt.trackers)
    ensures r == if GetVpn(base) in pt.trackers then Ok(()) else Err(VPNNotMapped(GetVpn(base)))
    ensures Pushed(old(ShotOf(pt)), ShotOf(pt), GetVpn(base), va - base, if r.Ok? then data else [])
  {
    hide Sound, Translation, Owned, Pool.Valid, Pool.Free, Pool.Live, Splice, Rewrites;
    InPageVpn(base, va);
    PushedNone(ShotOf(pt), GetVpn(base), va - base);
    var tracker := pt.GetTracker(GetVpn(va));
    if tracker.Err? {
      return Err(tracker.error);
    }
    assert Offset(va) + |data| <= PAGE_SIZE;
    StoreFrame(pt, GetVpn(va), Splice(FrameAt(pt.phys.frames, tracker.value), Offset(va), data));
    r := Ok(());
  }

  /** The loops of `exec`: bytes are pushed one by one, the last one first. */
  method PushBytes(pt: PageTable, va: nat, data: seq<Byte>, ghost base: nat) returns (r: Result<nat>)
    requires pt.Valid() && InPage(base, va) && |data| <= va - base
    modifies pt.phys`frames
    ensures pt.Valid() && pt.trackers == old(pt.trackers)
    ensures r == if data == [] || GetVpn(base) in pt.trackers then Ok(va - |data|) else Err(VPNNotMapped(GetVpn(base)))
    ensures r.Ok? ==> Pushed(old(ShotOf(pt)), ShotOf(pt), GetVpn(base), va - base - |data|, data)
  {
    hide Sound, Translation, Owned, Pool.Valid, Pool.Free, Pool.Live, Pushed;
    ghost var s := ShotOf(pt);
    PushedNone(s, GetVpn(base), va - base);
    var top, k := va, |data|;
    assert data[k..] == [];
    while k > 0
      invariant 0 <= k <= |data| && top == va - (|data| - k) && pt.Valid() && pt.trackers == old(pt.trackers)
      invariant k < |data| ==> GetVpn(base) in pt.trackers
      invariant Pushed(s, ShotOf(pt), GetVpn(base), top - base, data[k..])
    {
      k := k - 1;
      top := top - 1;
      ghost var t := ShotOf(pt);
      var p := Poke(pt, top, [data[k]], base);
      if p.Err? {
        return Err(p.error);
      }
      PushedBelow(s, t, ShotOf(pt), GetVpn(base), top - base + 1, data[k + 1..], [data[k]]);
      assert [data[k]] + data[k + 1..] == data[k..];
    }
    assert data[k..] == data;
    r := Ok(top);
  }

  /** What the stack holds from the final stack pointer upwards. */
  function CommandLine(path: seq<Byte>, args: seq<Byte>): (s: seq<Byte>)
    ensures |s| == |path| + |args| + 2 * WORD_SIZE
  {
    LeBytes(|path|, WORD_SIZE) + (path + (LeBytes(|args|, WORD_SIZE) + args))
  }

  /** The pushes of `exec`: arguments, their length, the path, its length. */
  method PushCommandLine(pt: PageTable, top: nat, path: seq<Byte>, args: seq<Byte>) returns (r: Result<nat>)
    requires pt.Valid() && top % PAGE_SIZE == 0 && top >= PAGE_SIZE
    modifies pt.phys`frames
    ensures pt.Valid() && pt.trackers == old(pt.trackers)
    ensures r == if |path| + |args| + 2 > COMMAND_LINE_LIMIT then Err(OversizeArgs)
                 else if GetVpn(top - PAGE_SIZE) !in pt.trackers then Err(VPNNotMapped(GetVpn(top - PAGE_SIZE)))
                 else Ok(top - |CommandLine(path, args)|)
    ensures r.Ok? ==> |CommandLine(path, args)| <= PAGE_SIZE
    ensures r.Ok? ==>
      Pushed(old(ShotOf(pt)), ShotOf(pt), GetVpn(top - PAGE_SIZE), PAGE_SIZE - |CommandLine(path, args)|,
             CommandLine(path, args))
  {
    hide Sound, Translation, Owned, Pool.Valid, Pool.Free, Pool.Live, Pushed, LeBytes;
    if COMMAND_LINE_LIMIT < |path| + |args| + 2 {
      return Err(OversizeArgs);
    }
    ghost var base, v, s := top - PAGE_SIZE, GetVpn(top - PAGE_SIZE), ShotOf(pt);
    var a := PushBytes(pt, top, args, base);
    if a.Err? {
      return Err(a.error);
    }
    ghost var t := ShotOf(pt);
    LeSize(|args|);
    LeSize(|path|);
    var length := LeBytes(|args|, WORD_SIZE);
    var w := Poke(pt, a.value - WORD_SIZE, length, base);
    if w.Err? {
      return Err(w.error);
    }
    PushedBelow(s, t, ShotOf(pt), v, PAGE_SIZE - |args|, args, length);
    t := ShotOf(pt);
    var p := PushBytes(pt, a.value - WORD_SIZE, path, base);
    if p.Err? {
      assert false;
    }
    PushedBelow(s, t, ShotOf(pt), v, PAGE_SIZE - |args| - WORD_SIZE, length + args, path);
    t := ShotOf(pt);
    length := LeBytes(|path|, WORD_SIZE);
    w := Poke(pt, p.value - WORD_SIZE, length, base);
    PushedBelow(s, t, ShotOf(pt), v, PAGE_SIZE - |args| - WORD_SIZE - |path|,
                path + (LeBytes(|args|, WORD_SIZE) + args), length);
    r := Ok(p.value - WORD_SIZE);
  }

  /** A reader that starts at the stack pointer finds both lengths, then both strings, with nothing between them. */
  lemma CommandLineReads(path: seq<Byte>, args: seq<Byte>)
    requires |path| + |args| + 2 <= COMMAND_LINE_LIMIT
    ensures var s := CommandLine(path, args); var m := WORD_SIZE + |path|;
      && LeValue(s[..WORD_SIZE]) == |path| && s[WORD_SIZE..m] == path
      && LeValue(s[m..m + WORD_SIZE]) == |args| && s[m + WORD_SIZE..] == args
  {
    hide LeBytes, LeValue;
    WordPower();
    LeRoundTrip(|path|, WORD_SIZE);
    LeRoundTrip(|args|, WORD_SIZE);
    var s, m := CommandLine(path, args), WORD_SIZE + |path|;
    LeSize(|path|);
    LeSize(|args|);
    assert s[..WORD_SIZE] == LeBytes(|path|, WORD_SIZE);
    assert s[m..m + WORD_SIZE] == LeBytes(|args|, WORD_SIZE);
  }

  lemma LeSize(n: nat)
    ensures |LeBytes(n, WORD_SIZE)| == WORD_SIZE
  {
  }

  /** Below the top of a stack that ends before page `end` lies page `end - 1`. */
  lemma TopPage(end: nat)
    requires 0 < end < VPN_LIMIT
    ensures BaseVa(end) >= PAGE_SIZE && BaseVa(end) % PAGE_SIZE == 0 && GetVpn(BaseVa(end) - PAGE_SIZE) == end - 1
  {
    BaseVaCases(end);
    if end >= VPN_LIMIT / 2 {
      var k := 0x200_0000;
      assert BaseVa(end) == (end + (k - 1) * VPN_LIMIT) * PAGE_SIZE;
      assert (BaseVa(end) - PAGE_SIZE) / PAGE_SIZE == end - 1 + (k - 1) * VPN_LIMIT;
    }
  }
}
