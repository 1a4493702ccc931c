/** The configuration walk of ocse/mmio.c (read_afu_config): BAR windows, acTag ranges and PASID ranges handed out
    from high-water marks over the functions and AFUs discovered. */
module ConfigWalk {
  import opened Common

  const FIRST_BAR: nat := 0x400_0000_0000
  const U64_SPAN: nat := 0x1_0000_0000_0000_0000

  /** An AFU control DVSEC: the lengths it supports. */
  datatype Afu = Afu(actagLen: nat, pasidLen: nat)

  /** A function with AFUs: its BAR mask as read back, and what the malloc of its fcn_cfg left in
      function_actag_length_enabled. */
  datatype Fcn = Fcn(bar0: U64, garbage: U16, afus: seq<Afu>)

  datatype AfuCfg = AfuCfg(actagBase: U16, actagLen: nat, pasidBase: Byte, pasidLen: nat)
  datatype FcnCfg = FcnCfg(bar0: U64, actagBase: U16, actagLen: U16, afus: seq<AfuCfg>)

  /** What a uint16_t keeps. */
  function Low16(x: nat): U16 { x % 0x1_0000 }

  /** `~bar0 + 1` on a uint64_t: the size of the window. */
  function WindowSize(bar0: U64): U64 { (U64_SPAN - bar0) % U64_SPAN }

  function NextBar(bar: U64, bar0: U64): U64 { (bar + WindowSize(bar0)) % U64_SPAN }

  // ---------- what the walk assigns ----------

  function AfuTotal(afus: seq<Afu>): nat {
    if afus == [] then 0 else afus[0].actagLen + AfuTotal(afus[1..])
  }

  function PasidTotal(afus: seq<Afu>): nat {
    if afus == [] then 0 else Pow2(afus[0].pasidLen) + PasidTotal(afus[1..])
  }

  function WindowTotal(fcns: seq<Fcn>): nat {
    if fcns == [] then 0 else WindowSize(fcns[0].bar0) + WindowTotal(fcns[1..])
  }

  function ActagTotal(fcns: seq<Fcn>): nat {
    if fcns == [] then 0 else AfuTotal(fcns[0].afus) + ActagTotal(fcns[1..])
  }

  /** The AFUs of one function, from the acTag and PASID marks, in the widths of struct afu_cfg. */
  function AfusFrom(afus: seq<Afu>, actag: nat, pasid: nat): (r: seq<AfuCfg>)
    ensures |r| == |afus|
  {
    if afus == [] then [] else
      [AfuCfg(Low16(actag), afus[0].actagLen, pasid % 0x100, afus[0].pasidLen)]
        + AfusFrom(afus[1..], actag + afus[0].actagLen, pasid + Pow2(afus[0].pasidLen))
  }

  function FcnFrom(f: Fcn, bar: U64, actag: nat): FcnCfg {
    FcnCfg(bar, Low16(actag), Low16(f.garbage + AfuTotal(f.afus)), AfusFrom(f.afus, actag, 0))
  }

  function FcnsFrom(fcns: seq<Fcn>, bar: U64, actag: nat): (r: seq<FcnCfg>)
    ensures |r| == |fcns|
  {
    if fcns == [] then [] else
      [FcnFrom(fcns[0], bar, actag)]
        + FcnsFrom(fcns[1..], NextBar(bar, fcns[0].bar0), actag + AfuTotal(fcns[0].afus))
  }

  lemma WrapSum(x: nat, y: nat, z: nat)
    ensures Low16(Low16(x + y) + z) == Low16(x + y + z)
  {
  }

  /** The walk from AFU a on takes one step. */
  lemma AfusStep(afus: seq<Afu>, a: nat, actag: nat, pasid: nat)
    requires a < |afus|
    ensures AfuTotal(afus[a..]) == afus[a].actagLen + AfuTotal(afus[a + 1..])
    ensures AfusFrom(afus[a..], actag, pasid) ==
      [AfuCfg(Low16(actag), afus[a].actagLen, pasid % 0x100, afus[a].pasidLen)]
        + AfusFrom(afus[a + 1..], actag + afus[a].actagLen, pasid + Pow2(afus[a].pasidLen))
  {
  }

  lemma AfusEnd(afus: seq<Afu>, actag: nat, pasid: nat)
    ensures AfuTotal(afus[|afus|..]) == 0 && AfusFrom(afus[|afus|..], actag, pasid) == []
    ensures afus[0..] == afus
  {
  }

  lemma Regroup<T>(a: seq<T>, x: T, b: seq<T>)
    ensures a + ([x] + b) == (a + [x]) + b
  {
  }

  /** The AFUs of one function: each takes its ranges at the marks, which then move past them. */
  method WalkAfus(f: Fcn, actag: nat) returns (afus: seq<AfuCfg>, next: nat, length: U16)
    ensures afus == AfusFrom(f.afus, actag, 0) && next == actag + AfuTotal(f.afus)
    ensures length == Low16(f.garbage + AfuTotal(f.afus))
  {
    hide *;
    var pasid: nat := 0;
    afus, next, length := [], actag, f.garbage;
    AfusEnd(f.afus, next, pasid);
    for a := 0 to |f.afus|
      invariant afus + AfusFrom(f.afus[a..], next, pasid) == AfusFrom(f.afus, actag, 0)
      invariant next + AfuTotal(f.afus[a..]) == actag + AfuTotal(f.afus)
      invariant Low16(length + AfuTotal(f.afus[a..])) == Low16(f.garbage + AfuTotal(f.afus))
    {
      var found := f.afus[a];
      AfusStep(f.afus, a, next, pasid);
      WrapSum(length, found.actagLen, AfuTotal(f.afus[a + 1..]));
      var cfg := AfuCfg(Low16(next), found.actagLen, pasid % 0x100, found.pasidLen);
      pasid := pasid + Pow2(found.pasidLen);
      length := Low16(length + found.actagLen);
      next := next + found.actagLen;
      Regroup(afus, cfg, AfusFrom(f.afus[a + 1..], next, pasid));
      afus := afus + [cfg];
    }
    AfusEnd(f.afus, next, pasid);
    LowOfLow(length);
  }

  lemma LowOfLow(x: U16)
    ensures Low16(x) == x
  {
  }

  lemma FcnsStep(fcns: seq<Fcn>, f: nat, bar: U64, actag: nat)
    requires f < |fcns|
    ensures FcnsFrom(fcns[f..], bar, actag) ==
      [FcnFrom(fcns[f], bar, actag)] + FcnsFrom(fcns[f + 1..], NextBar(bar, fcns[f].bar0),
          actag + AfuTotal(fcns[f].afus))
  {
  }

  lemma FcnsEnd(fcns: seq<Fcn>, bar: U64, actag: nat)
    ensures FcnsFrom(fcns[|fcns|..], bar, actag) == [] && fcns[0..] == fcns
  {
  }

  method WalkFcn(f: Fcn, bar: U64, actag: nat) returns (cfg: FcnCfg, next: nat)
    ensures cfg == FcnFrom(f, bar, actag) && next == actag + AfuTotal(f.afus)
  {
    var afus, end, length := WalkAfus(f, actag);
    cfg, next := FcnCfg(bar, Low16(actag), length, afus), end;
  }

  /** The bytes all windows take, from the masks read back: a mask m, other than 0, stands for 2^64 - m bytes. */
  function MaskTotal(fcns: seq<Fcn>): nat {
    if fcns == [] then 0
    else (if fcns[0].bar0 == 0 then 0 else 0x1_0000_0000_0000_0000 - fcns[0].bar0) + MaskTotal(fcns[1..])
  }

  lemma {:induction false} MasksAreWindows(fcns: seq<Fcn>)
    ensures WindowTotal(fcns) == MaskTotal(fcns)
  {
    if fcns != [] {
      MasksAreWindows(fcns[1..]);
    }
  }

  /** What AFU a of function f is handed: its acTags start behind all those handed out before, its PASIDs behind those
      of its own function, each cut to the width of its field; the function's window starts behind those before it. */
  predicate HandedOut(fcns: seq<Fcn>, cfgs: seq<FcnCfg>, f: nat, a: nat)
    requires f < |fcns| && a < |fcns[f].afus|
  {
    && |cfgs| == |fcns| && |cfgs[f].afus| == |fcns[f].afus|
    && cfgs[f].actagBase == ActagTotal(fcns[..f]) % 0x1_0000
    && cfgs[f].bar0 == (0x400_0000_0000 + MaskTotal(fcns[..f])) % 0x1_0000_0000_0000_0000
    && cfgs[f].afus[a] == AfuCfg((ActagTotal(fcns[..f]) + AfuTotal(fcns[f].afus[..a])) % 0x1_0000,
                                 fcns[f].afus[a].actagLen,
                                 PasidTotal(fcns[f].afus[..a]) % 0x100,
                                 fcns[f].afus[a].pasidLen)
  }

  lemma {:induction false} AfuAt(afus: seq<Afu>, actag: nat, pasid: nat, a: nat)
    requires a < |afus|
    ensures AfusFrom(afus, actag, pasid)[a] == AfuCfg(Low16(actag + AfuTotal(afus[..a])), afus[a].actagLen,
      (pasid + PasidTotal(afus[..a])) % 0x100, afus[a].pasidLen)
  {
    if a > 0 {
      AfuAt(afus[1..], actag + afus[0].actagLen, pasid + Pow2(afus[0].pasidLen), a - 1);
      assert afus[..a][1..] == afus[1..][..a - 1];
    }
  }

  lemma {:induction false} FcnAt(fcns: seq<Fcn>, bar: U64, actag: nat, f: nat)
    requires f < |fcns|
    ensures var c := FcnsFrom(fcns, bar, actag)[f];
      c == FcnFrom(fcns[f], (bar + WindowTotal(fcns[..f])) % U64_SPAN, actag + ActagTotal(fcns[..f]))
  {
    hide AfusFrom, WindowSize;
    if f > 0 {
      WrapBars(bar + WindowSize(fcns[0].bar0), WindowTotal(fcns[1..][..f - 1]));
      FcnAt(fcns[1..], NextBar(bar, fcns[0].bar0), actag + AfuTotal(fcns[0].afus), f - 1);
      assert fcns[..f][1..] == fcns[1..][..f - 1];
    }
  }

  lemma WrapBars(x: nat, y: nat)
    ensures (x % U64_SPAN + y) % U64_SPAN == (x + y) % U64_SPAN
  {
  }

  lemma {:induction false} Handed(fcns: seq<Fcn>, cfgs: seq<FcnCfg>, f: nat, a: nat)
    requires f < |fcns| && a < |fcns[f].afus| && cfgs == FcnsFrom(fcns, FIRST_BAR, 0)
    ensures HandedOut(fcns, cfgs, f, a)
  {
    FcnAt(fcns, FIRST_BAR, 0, f);
    MasksAreWindows(fcns[..f]);
    AfuAt(fcns[f].afus, ActagTotal(fcns[..f]), 0, a);
  }

  /** read_afu_config over the functions found. */
  method Walk(fcns: seq<Fcn>) returns (cfgs: seq<FcnCfg>)
    ensures cfgs == FcnsFrom(fcns, FIRST_BAR, 0)
    ensures forall f: nat, a: nat :: f < |fcns| && a < |fcns[f].afus| ==> HandedOut(fcns, cfgs, f, a)
  {
    var bar: U64, actag: nat := FIRST_BAR, 0;
    cfgs := [];
    hide *;
    FcnsEnd(fcns, bar, actag);
    for f := 0 to |fcns|
      invariant cfgs + FcnsFrom(fcns[f..], bar, actag) == FcnsFrom(fcns, FIRST_BAR, 0)
    {
      FcnsStep(fcns, f, bar, actag);
      var cfg, next := WalkFcn(fcns[f], bar, actag);
      bar := NextBar(bar, fcns[f].bar0);
      actag := next;
      Regroup(cfgs, cfg, FcnsFrom(fcns[f + 1..], bar, actag));
      cfgs := cfgs + [cfg];
    }
    FcnsEnd(fcns, bar, actag);
    forall f: nat, a: nat | f < |fcns| && a < |fcns[f].afus| ensures HandedOut(fcns, cfgs, f, a) {
      Handed(fcns, cfgs, f, a);
    }
  }

  // ---------- ranges ----------

  datatype Range = Range(base: nat, len: nat)

  /** The ranges follow one another from `from` to `to` without gap or overlap. */
  predicate Tiled(rs: seq<Range>, from: nat, to: nat) {
    if rs == [] then from == to else rs[0].base == from && Tiled(rs[1..], from + rs[0].len, to)
  }

  lemma {:induction false} TiledBounds(rs: seq<Range>, from: nat, to: nat, i: nat)
    requires Tiled(rs, from, to) && i < |rs|
    ensures from <= rs[i].base && rs[i].base + rs[i].len <= to
  {
    if i == 0 {
      TiledEnd(rs[1..], from + rs[0].len, to);
    } else {
      TiledBounds(rs[1..], from + rs[0].len, to, i - 1);
    }
  }

  lemma {:induction false} TiledEnd(rs: seq<Range>, from: nat, to: nat)
    requires Tiled(rs, from, to)
    ensures from <= to
  {
    if rs != [] {
      TiledEnd(rs[1..], from + rs[0].len, to);
    }
  }

  /** Ranges that follow one another are pairwise disjoint. */
  lemma {:induction false} TiledDisjoint(rs: seq<Range>, from: nat, to: nat, i: nat, j: nat)
    requires Tiled(rs, from, to) && i < j < |rs|
    ensures rs[i].base + rs[i].len <= rs[j].base
  {
    if i == 0 {
      TiledBounds(rs[1..], from + rs[0].len, to, j - 1);
    } else {
      TiledDisjoint(rs[1..], from + rs[0].len, to, i - 1, j - 1);
    }
  }

  lemma {:induction false} TiledConcat(a: seq<Range>, b: seq<Range>, from: nat, mid: nat, to: nat)
    requires Tiled(a, from, mid) && Tiled(b, mid, to)
    ensures Tiled(a + b, from, to)
  {
    if a == [] {
      assert a + b == b;
    } else {
      TiledConcat(a[1..], b, from + a[0].len, mid, to);
      assert (a + b)[1..] == a[1..] + b;
    }
  }

  function ActagRanges(afus: seq<AfuCfg>): (r: seq<Range>)
    ensures |r| == |afus|
  {
    if afus == [] then [] else [Range(afus[0].actagBase, afus[0].actagLen)] + ActagRanges(afus[1..])
  }

  function PasidRanges(afus: seq<AfuCfg>): (r: seq<Range>)
    ensures |r| == |afus|
  {
    if afus == [] then [] else [Range(afus[0].pasidBase, Pow2(afus[0].pasidLen))] + PasidRanges(afus[1..])
  }

  /** The acTag ranges of every AFU of the device, in the order of the walk. */
  function DeviceActags(cfgs: seq<FcnCfg>): seq<Range> {
    if cfgs == [] then [] else ActagRanges(cfgs[0].afus) + DeviceActags(cfgs[1..])
  }

  function Windows(fcns: seq<Fcn>, cfgs: seq<FcnCfg>): (r: seq<Range>)
    requires |fcns| == |cfgs|
    ensures |r| == |fcns|
  {
    if fcns == [] then [] else [Range(cfgs[0].bar0, WindowSize(fcns[0].bar0))] + Windows(fcns[1..], cfgs[1..])
  }

  // ---------- the ranges do not overlap ----------

  /** The acTags of AFUs before they are cut to 16 bits. */
  function Spans(afus: seq<Afu>, actag: nat): (r: seq<Range>)
    ensures |r| == |afus|
  {
    if afus == [] then [] else [Range(actag, afus[0].actagLen)] + Spans(afus[1..], actag + afus[0].actagLen)
  }

  function DeviceSpans(fcns: seq<Fcn>, actag: nat): seq<Range> {
    if fcns == [] then []
    else Spans(fcns[0].afus, actag) + DeviceSpans(fcns[1..], actag + AfuTotal(fcns[0].afus))
  }

  function Wrapped(rs: seq<Range>): (w: seq<Range>)
    ensures |w| == |rs| && forall i :: 0 <= i < |rs| ==> w[i] == Range(Low16(rs[i].base), rs[i].len)
  {
    seq(|rs|, i requires 0 <= i < |rs| => Range(Low16(rs[i].base), rs[i].len))
  }

  lemma {:induction false} SpansTiled(afus: seq<Afu>, actag: nat)
    ensures Tiled(Spans(afus, actag), actag, actag + AfuTotal(afus))
  {
    if afus != [] {
      SpansTiled(afus[1..], actag + afus[0].actagLen);
      assert Spans(afus, actag)[1..] == Spans(afus[1..], actag + afus[0].actagLen);
    }
  }

  lemma {:induction false} DeviceSpansTiled(fcns: seq<Fcn>, actag: nat)
    ensures Tiled(DeviceSpans(fcns, actag), actag, actag + ActagTotal(fcns))
  {
    if fcns != [] {
      var mid := actag + AfuTotal(fcns[0].afus);
      SpansTiled(fcns[0].afus, actag);
      DeviceSpansTiled(fcns[1..], mid);
      TiledConcat(Spans(fcns[0].afus, actag), DeviceSpans(fcns[1..], mid), actag, mid, actag + ActagTotal(fcns));
    }
  }

  lemma {:induction false} AfuRangesAre(afus: seq<Afu>, actag: nat, pasid: nat)
    ensures ActagRanges(AfusFrom(afus, actag, pasid)) == Wrapped(Spans(afus, actag))
  {
    if afus != [] {
      var rest := AfusFrom(afus[1..], actag + afus[0].actagLen, pasid + Pow2(afus[0].pasidLen));
      AfuRangesAre(afus[1..], actag + afus[0].actagLen, pasid + Pow2(afus[0].pasidLen));
      assert AfusFrom(afus, actag, pasid)[1..] == rest;
      assert ActagRanges(AfusFrom(afus, actag, pasid))[1..] == ActagRanges(rest);
    }
  }

  /** What the walk hands out is those acTags, cut to 16 bits. */
  lemma {:induction false} DeviceRangesAre(fcns: seq<Fcn>, bar: U64, actag: nat)
    ensures DeviceActags(FcnsFrom(fcns, bar, actag)) == Wrapped(DeviceSpans(fcns, actag))
  {
    if fcns != [] {
      AfuRangesAre(fcns[0].afus, actag, 0);
      DeviceRangesAre(fcns[1..], NextBar(bar, fcns[0].bar0), actag + AfuTotal(fcns[0].afus));
      hide AfusFrom, ActagRanges, Spans, AfuTotal;
      DeviceActagsStep(fcns, bar, actag);
    }
  }

  lemma {:induction false} PasidsTiled(afus: seq<Afu>, actag: nat, pasid: nat)
    requires pasid + PasidTotal(afus) <= 0x100
    ensures Tiled(PasidRanges(AfusFrom(afus, actag, pasid)), pasid, pasid + PasidTotal(afus))
  {
    if afus != [] {
      var rest := AfusFrom(afus[1..], actag + afus[0].actagLen, pasid + Pow2(afus[0].pasidLen));
      assert AfusFrom(afus, actag, pasid)[1..] == rest;
      PasidsTiled(afus[1..], actag + afus[0].actagLen, pasid + Pow2(afus[0].pasidLen));
      assert PasidRanges(AfusFrom(afus, actag, pasid))[1..] == PasidRanges(rest);
    }
  }

  lemma DeviceActagsStep(fcns: seq<Fcn>, bar: U64, actag: nat)
    requires fcns != []
    ensures ActagTotal(fcns) == AfuTotal(fcns[0].afus) + ActagTotal(fcns[1..])
    ensures DeviceActags(FcnsFrom(fcns, bar, actag)) == ActagRanges(AfusFrom(fcns[0].afus, actag, 0))
      + DeviceActags(FcnsFrom(fcns[1..], NextBar(bar, fcns[0].bar0), actag + AfuTotal(fcns[0].afus)))
  {
  }

  lemma TiledCons(r: Range, rs: seq<Range>, to: nat)
    requires Tiled(rs, r.base + r.len, to)
    ensures Tiled([r] + rs, r.base, to)
  {
  }

  lemma WindowsStep(fcns: seq<Fcn>, bar: U64, actag: nat)
    requires fcns != [] && bar + WindowTotal(fcns) < U64_SPAN
    ensures NextBar(bar, fcns[0].bar0) == bar + WindowSize(fcns[0].bar0)
    ensures WindowTotal(fcns) == WindowSize(fcns[0].bar0) + WindowTotal(fcns[1..])
    ensures Windows(fcns, FcnsFrom(fcns, bar, actag)) == [Range(bar, WindowSize(fcns[0].bar0))]
      + Windows(fcns[1..], FcnsFrom(fcns[1..], NextBar(bar, fcns[0].bar0), actag + AfuTotal(fcns[0].afus)))
  {
  }

  lemma {:induction false} WindowsTiled(fcns: seq<Fcn>, bar: U64, actag: nat)
    requires bar + WindowTotal(fcns) < U64_SPAN
    ensures Tiled(Windows(fcns, FcnsFrom(fcns, bar, actag)), bar, bar + WindowTotal(fcns))
  {
    if fcns != [] {
      hide *;
      WindowsStep(fcns, bar, actag);
      var bar', actag' := NextBar(bar, fcns[0].bar0), actag + AfuTotal(fcns[0].afus);
      WindowsTiled(fcns[1..], bar', actag');
      TiledCons(Range(bar, WindowSize(fcns[0].bar0)), Windows(fcns[1..], FcnsFrom(fcns[1..], bar', actag')),
          bar + WindowTotal(fcns));
    }
  }

  /** The acTags of a range that starts anywhere below 2^16 and wraps there. */
  predicate Holds(r: Range, tag: U16) {
    (tag + 0x1_0000 - Low16(r.base)) % 0x1_0000 < r.len
  }

  /** No two of the ranges hold the same acTag. */
  ghost predicate NoneShared(rs: seq<Range>) {
    forall i, j, tag: U16 :: 0 <= i < j < |rs| && Holds(rs[i], tag) ==> !Holds(rs[j], tag)
  }

  /** A range before wrapping that lies below 2^16 holds exactly its numbers. */
  lemma HoldsBelow(r: Range, tag: U16)
    requires r.base + r.len <= 0x1_0000
    ensures Holds(Range(Low16(r.base), r.len), tag) ==> r.base <= tag < r.base + r.len
  {
  }

  /** A number in a range, wherever it lies, is held once cut to 16 bits. */
  lemma HoldsWrapped(r: Range, u: nat)
    requires r.base <= u < r.base + r.len && r.len <= 0x1_0000
    ensures Holds(Range(Low16(r.base), r.len), Low16(u))
  {
    var d := u - r.base;
    assert (Low16(u) + 0x1_0000 - Low16(r.base)) % 0x1_0000 == d % 0x1_0000;
  }

  /** Every number is in one of the ranges that follow one another around it. */
  lemma {:induction false} OwnerOf(rs: seq<Range>, from: nat, to: nat, u: nat) returns (i: nat)
    requires Tiled(rs, from, to) && from <= u < to
    ensures i < |rs| && rs[i].base <= u < rs[i].base + rs[i].len
  {
    if u < from + rs[0].len {
      i := 0;
    } else {
      var k := OwnerOf(rs[1..], from + rs[0].len, to, u);
      i := k + 1;
    }
  }

  /** Ranges that follow one another from 0 and wrap at 2^16 share nothing if and only if they end there at the latest,
      whatever ranges are empty. */
  lemma WrappedShared(rs: seq<Range>, to: nat)
    requires Tiled(rs, 0, to) && forall i :: 0 <= i < |rs| ==> rs[i].len <= 0xFFF
    ensures NoneShared(Wrapped(rs)) <==> to <= 0x1_0000
  {
    var w := Wrapped(rs);
    if to <= 0x1_0000 {
      forall i, j, tag: U16 | 0 <= i < j < |w| && Holds(w[i], tag) ensures !Holds(w[j], tag) {
        TiledBounds(rs, 0, to, i);
        TiledBounds(rs, 0, to, j);
        TiledDisjoint(rs, 0, to, i, j);
        HoldsBelow(rs[i], tag);
        HoldsBelow(rs[j], tag);
      }
    } else {
      var i := OwnerOf(rs, 0, to, 0);
      var j := OwnerOf(rs, 0, to, 0x1_0000);
      HoldsWrapped(rs[i], 0);
      HoldsWrapped(rs[j], 0x1_0000);
      assert Holds(w[i], 0) && Holds(w[j], 0);
      if j < i {
        TiledDisjoint(rs, 0, to, j, i);
      }
    }
  }

  /** No two AFUs of the device share an acTag if and only if all of them together ask for at most 2^16; lengths are
      twelve-bit fields, and may be 0. */
  lemma ActagsDisjoint(fcns: seq<Fcn>)
    requires forall f, a :: 0 <= f < |fcns| && 0 <= a < |fcns[f].afus| ==> fcns[f].afus[a].actagLen <= 0xFFF
    ensures NoneShared(DeviceActags(FcnsFrom(fcns, FIRST_BAR, 0))) <==> ActagTotal(fcns) <= 0x1_0000
  {
    DeviceSpansTiled(fcns, 0);
    DeviceRangesAre(fcns, FIRST_BAR, 0);
    SpansShort(fcns, 0);
    WrappedShared(DeviceSpans(fcns, 0), ActagTotal(fcns));
  }

  lemma {:induction false} SpansShort(fcns: seq<Fcn>, actag: nat)
    requires forall f, a :: 0 <= f < |fcns| && 0 <= a < |fcns[f].afus| ==> fcns[f].afus[a].actagLen <= 0xFFF
    ensures forall i :: 0 <= i < |DeviceSpans(fcns, actag)| ==> DeviceSpans(fcns, actag)[i].len <= 0xFFF
  {
    if fcns != [] {
      AfuSpansShort(fcns[0].afus, actag);
      SpansShort(fcns[1..], actag + AfuTotal(fcns[0].afus));
    }
  }

  lemma {:induction false} AfuSpansShort(afus: seq<Afu>, actag: nat)
    requires forall a :: 0 <= a < |afus| ==> afus[a].actagLen <= 0xFFF
    ensures forall i :: 0 <= i < |afus| ==> Spans(afus, actag)[i].len <= 0xFFF
  {
    if afus != [] {
      AfuSpansShort(afus[1..], actag + afus[0].actagLen);
    }
  }

  lemma {:induction false} WindowAt(fcns: seq<Fcn>, cfgs: seq<FcnCfg>, i: nat)
    requires |fcns| == |cfgs| && i < |fcns|
    ensures Windows(fcns, cfgs)[i] == Range(cfgs[i].bar0, WindowSize(fcns[i].bar0))
  {
    if i > 0 {
      WindowAt(fcns[1..], cfgs[1..], i - 1);
    }
  }

  /** The first function's window starts at 0x40000000000, and no two functions share a window: each starts behind the
      whole of every window before it. */
  lemma {:induction false} WindowsDisjoint(fcns: seq<Fcn>, i: nat, j: nat)
    requires 0x400_0000_0000 + MaskTotal(fcns) < 0x1_0000_0000_0000_0000 && i < j < |fcns|
    ensures var cfgs := FcnsFrom(fcns, FIRST_BAR, 0);
      && cfgs[0].bar0 == 0x400_0000_0000
      && cfgs[i].bar0 + (if fcns[i].bar0 == 0 then 0 else 0x1_0000_0000_0000_0000 - fcns[i].bar0) <= cfgs[j].bar0
  {
    MasksAreWindows(fcns);
    WindowsTiled(fcns, FIRST_BAR, 0);
    var cfgs := FcnsFrom(fcns, FIRST_BAR, 0);
    WindowAt(fcns, cfgs, i);
    WindowAt(fcns, cfgs, j);
    TiledDisjoint(Windows(fcns, cfgs), FIRST_BAR, FIRST_BAR + WindowTotal(fcns), i, j);
  }

  /** No two AFUs of one function share a PASID. */
  lemma {:induction false} PasidsDisjoint(f: Fcn, bar: U64, actag: nat, i: nat, j: nat)
    requires PasidTotal(f.afus) <= 0x100 && i < j < |f.afus|
    ensures var r := PasidRanges(FcnFrom(f, bar, actag).afus);
      r[i].base + r[i].len <= r[j].base && r[j].base + r[j].len <= 0x100
  {
    PasidsTiled(f.afus, actag, 0);
    var r := PasidRanges(FcnFrom(f, bar, actag).afus);
    TiledDisjoint(r, 0, PasidTotal(f.afus), i, j);
    TiledBounds(r, 0, PasidTotal(f.afus), j);
  }

  /** While they end below 2^16 the ranges of a function's AFUs follow one another as they are. */
  lemma AfuActagsTiled(afus: seq<Afu>, actag: nat, pasid: nat)
    requires actag + AfuTotal(afus) < 0x1_0000
    ensures Tiled(ActagRanges(AfusFrom(afus, actag, pasid)), actag, actag + AfuTotal(afus))
  {
    AfuRangesAre(afus, actag, pasid);
    SpansTiled(afus, actag);
    var rs := Spans(afus, actag);
    forall i | 0 <= i < |rs| ensures Wrapped(rs)[i] == rs[i] {
      TiledBounds(rs, actag, actag + AfuTotal(afus), i);
    }
    assert Wrapped(rs) == rs;
  }

  /** The range written to the function's own DVSEC covers exactly its AFUs' acTags if and only if its length
      counter, which nothing initialises, happened to start at zero. */
  lemma {:induction false} FunctionRangeExact(f: Fcn, bar: U64, actag: nat)
    requires actag + AfuTotal(f.afus) < 0x1_0000
    ensures var c := FcnFrom(f, bar, actag);
      Tiled(ActagRanges(c.afus), c.actagBase, c.actagBase + c.actagLen) <==> f.garbage == 0
  {
    AfuActagsTiled(f.afus, actag, 0);
    var c := FcnFrom(f, bar, actag);
    if Tiled(ActagRanges(c.afus), c.actagBase, c.actagBase + c.actagLen) {
      TiledTo(ActagRanges(c.afus), actag, actag + AfuTotal(f.afus), c.actagBase + c.actagLen);
    }
  }

  lemma {:induction false} TiledTo(rs: seq<Range>, from: nat, to: nat, other: nat)
    requires Tiled(rs, from, to) && Tiled(rs, from, other)
    ensures to == other
  {
    if rs != [] {
      TiledTo(rs[1..], from + rs[0].len, to, other);
    }
  }
}
