/**
 The multi-device layer packer: entries in forward order onto devices with byte budgets,
 monotone, spilling a suffix to the CPU.

 The method is proved to return the least valid placement: no valid placement puts any
 entry on an earlier tier.
 */
module LayerPack {

  /** DS4_LAYER_PACK_MAX_GPUS and DS4_LAYER_PACK_CPU */
  const MAX_GPUS := 16
  const CPU := -1

  /** ds4_layer_pack_config */
  class Config {
    const budgets: seq<nat>
    const gpus: int

    constructor (budgets: seq<nat>, gpus: int)
      requires |budgets| == MAX_GPUS
      ensures this.budgets == budgets && this.gpus == gpus
    {
      this.budgets := budgets;
      this.gpus := gpus;
    }
  }

  /** The position of a tier in forward order: the devices, then the CPU. */
  function Tier(device: int, gpus: int): int {
    if device == CPU then gpus else device
  }

  /** Bytes the first `n` entries put on device `d`. */
  function Used(bytes: seq<nat>, p: seq<int>, d: int, n: nat): nat
    requires n <= |bytes| && n <= |p|
  {
    if n == 0 then 0
    else Used(bytes, p, d, n - 1) + if p[n - 1] == d then bytes[n - 1] else 0
  }

  ghost predicate Fits(bytes: seq<nat>, budgets: seq<nat>, p: seq<int>, d: int)
    requires |p| <= |bytes|
  {
    0 <= d < |budgets| ==> Used(bytes, p, d, |p|) <= budgets[d]
  }

  /** A monotone placement of the first |p| entries within every budget. */
  ghost predicate ValidPlacement(bytes: seq<nat>, budgets: seq<nat>, p: seq<int>) {
    && |p| <= |bytes|
    && (forall e :: 0 <= e < |p| ==> p[e] == CPU || 0 <= p[e] < |budgets|)
    && (forall e, f :: 0 <= e < f < |p| ==> Tier(p[e], |budgets|) <= Tier(p[f], |budgets|))
    && (forall d :: Fits(bytes, budgets, p, d))
  }

  /** Pointwise no later than every valid placement of the same entries. */
  ghost predicate Least(bytes: seq<nat>, budgets: seq<nat>, p: seq<int>) {
    && ValidPlacement(bytes, budgets, p)
    && forall q :: ValidPlacement(bytes, budgets, q) && |q| == |p| ==> Ahead(budgets, p, q)
  }

  ghost predicate Ahead(budgets: seq<nat>, p: seq<int>, q: seq<int>) {
    && |p| == |q|
    && forall e :: 0 <= e < |p| ==> Tier(p[e], |budgets|) <= Tier(q[e], |budgets|)
  }

  lemma {:induction false} UsedMonotone(bytes: seq<nat>, p: seq<int>, q: seq<int>, d: int, n: nat)
    requires n <= |bytes| && n <= |p| && n <= |q|
    requires forall e :: 0 <= e < n && p[e] == d ==> q[e] == d
    ensures Used(bytes, p, d, n) <= Used(bytes, q, d, n)
  {
    if n > 0 {
      UsedMonotone(bytes, p, q, d, n - 1);
    }
  }

  lemma {:induction false} UsedPrefix(bytes: seq<nat>, p: seq<int>, q: seq<int>, d: int, n: nat)
    requires n <= |bytes| && n <= |p| && n <= |q| && p[..n] == q[..n]
    ensures Used(bytes, p, d, n) == Used(bytes, q, d, n)
  {
    if n > 0 {
      assert p[n - 1] == p[..n][n - 1] && q[n - 1] == q[..n][n - 1];
      assert p[..n - 1] == p[..n][..n - 1] && q[..n - 1] == q[..n][..n - 1];
      UsedPrefix(bytes, p, q, d, n - 1);
    }
  }

  lemma {:induction false} UsedGrows(bytes: seq<nat>, p: seq<int>, d: int, m: nat, n: nat)
    requires m <= n <= |bytes| && n <= |p|
    ensures Used(bytes, p, d, m) <= Used(bytes, p, d, n)
    decreases n - m
  {
    if m < n {
      UsedGrows(bytes, p, d, m, n - 1);
    }
  }

  /**
   Greedy stays ahead: if the entries so far are placed no later than in `q`, and the next
   entry does not fit beside them on device `d`, then `q` does not put it there either.
   */
  lemma NotHere(bytes: seq<nat>, budgets: seq<nat>, p: seq<int>, q: seq<int>, d: nat)
    requires |p| < |bytes| && |q| == |p| + 1 && d < |budgets|
    requires ValidPlacement(bytes, budgets, q) && Ahead(budgets, p, q[..|p|])
    requires forall e :: 0 <= e < |p| ==> Tier(p[e], |budgets|) <= d
    requires bytes[|p|] > budgets[d] - Used(bytes, p, d, |p|)
    requires Tier(q[|p|], |budgets|) >= d
    ensures Tier(q[|p|], |budgets|) >= d + 1
  {
    var n := |p|;
    assert Fits(bytes, budgets, q, d);
    if q[n] == d {
      forall e | 0 <= e < n && p[e] == d ensures q[e] == d {
        assert Tier(p[e], |budgets|) <= Tier(q[..n][e], |budgets|) && q[..n][e] == q[e];
        assert Tier(q[e], |budgets|) <= Tier(q[n], |budgets|);
      }
      UsedMonotone(bytes, p, q, d, n);
    }
  }

  /** The first entries of a valid placement are validly placed. */
  lemma ValidPrefix(bytes: seq<nat>, budgets: seq<nat>, q: seq<int>, n: nat)
    requires ValidPlacement(bytes, budgets, q) && n <= |q|
    ensures ValidPlacement(bytes, budgets, q[..n])
  {
    var p := q[..n];
    forall e | 0 <= e < n ensures p[e] == CPU || 0 <= p[e] < |budgets| {
      assert p[e] == q[e];
    }
    forall e, f | 0 <= e < f < n ensures Tier(p[e], |budgets|) <= Tier(p[f], |budgets|) {
      assert p[e] == q[e] && p[f] == q[f];
    }
    forall d ensures Fits(bytes, budgets, p, d) {
      assert Fits(bytes, budgets, q, d);
      UsedPrefix(bytes, p, q, d, n);
      UsedGrows(bytes, q, d, n, |q|);
    }
  }

  /** The bytes still free on each device after a placement. */
  ghost predicate Free(bytes: seq<nat>, budgets: seq<nat>, p: seq<int>, free: seq<nat>) {
    && |p| <= |bytes| && |free| == |budgets|
    && forall d :: 0 <= d < |budgets| ==> free[d] == budgets[d] - Used(bytes, p, d, |p|)
  }

  /** No valid placement of one more entry puts it before tier `d`. */
  ghost predicate Reached(bytes: seq<nat>, budgets: seq<nat>, p: seq<int>, d: int) {
    forall q :: ValidPlacement(bytes, budgets, q) && |q| == |p| + 1 ==> Tier(q[|p|], |budgets|) >= d
  }

  lemma Advance(bytes: seq<nat>, budgets: seq<nat>, p: seq<int>, free: seq<nat>, d: nat)
    requires Least(bytes, budgets, p) && Free(bytes, budgets, p, free)
    requires |p| < |bytes| && d < |budgets| && bytes[|p|] > free[d]
    requires forall e :: 0 <= e < |p| ==> Tier(p[e], |budgets|) <= d
    requires Reached(bytes, budgets, p, d)
    ensures Reached(bytes, budgets, p, d + 1)
  {
    forall q | ValidPlacement(bytes, budgets, q) && |q| == |p| + 1
      ensures Tier(q[|p|], |budgets|) >= d + 1
    {
      ValidPrefix(bytes, budgets, q, |p|);
      assert Ahead(budgets, p, q[..|p|]);
      NotHere(bytes, budgets, p, q, d);
    }
  }

  lemma PlaceUsed(bytes: seq<nat>, p: seq<int>, device: int, d: int)
    requires |p| < |bytes|
    ensures Used(bytes, p + [device], d, |p| + 1)
         == Used(bytes, p, d, |p|) + if device == d then bytes[|p|] else 0
  {
    assert (p + [device])[..|p|] == p[..|p|];
    UsedPrefix(bytes, p + [device], p, d, |p|);
  }

  lemma PlaceValid(bytes: seq<nat>, budgets: seq<nat>, p: seq<int>, free: seq<nat>, device: int, d: int)
    requires ValidPlacement(bytes, budgets, p) && Free(bytes, budgets, p, free) && |p| < |bytes|
    requires forall e :: 0 <= e < |p| ==> Tier(p[e], |budgets|) <= d
    requires if device == CPU then d == |budgets| else device == d && 0 <= d < |budgets| && bytes[|p|] <= free[d]
    ensures ValidPlacement(bytes, budgets, p + [device])
  {
    var r := p + [device];
    forall e, f | 0 <= e < f < |r| ensures Tier(r[e], |budgets|) <= Tier(r[f], |budgets|) {
      assert r[e] == p[e];
    }
    forall k ensures Fits(bytes, budgets, r, k) {
      assert Fits(bytes, budgets, p, k);
      PlaceUsed(bytes, p, device, k);
    }
  }

  lemma PlaceLeast(bytes: seq<nat>, budgets: seq<nat>, p: seq<int>, device: int, d: int)
    requires Least(bytes, budgets, p) && Reached(bytes, budgets, p, d)
    requires ValidPlacement(bytes, budgets, p + [device]) && Tier(device, |budgets|) == d
    ensures Least(bytes, budgets, p + [device])
  {
    var r := p + [device];
    forall q | ValidPlacement(bytes, budgets, q) && |q| == |r| ensures Ahead(budgets, r, q) {
      ValidPrefix(bytes, budgets, q, |p|);
      assert Ahead(budgets, p, q[..|p|]);
      forall e | 0 <= e < |r| ensures Tier(r[e], |budgets|) <= Tier(q[e], |budgets|) {
        if e < |p| {
          assert q[..|p|][e] == q[e] && r[e] == p[e];
        }
      }
    }
  }

  /**
   ds4_compute_layer_placement.  On success the output array holds the least valid
   placement; on a configuration error it is untouched.
   */
  method ComputeLayerPlacement(entryBytes: array?<nat>, n: int, cfg: Config?, out: array?<int>)
    returns (rc: int)
    requires cfg != null ==> |cfg.budgets| == MAX_GPUS
    requires entryBytes != null ==> n <= entryBytes.Length
    requires out != null ==> n <= out.Length
    modifies out
    ensures rc == if entryBytes == null || cfg == null || out == null then 1
                  else if n < 0 then 2
                  else if cfg.gpus < 0 || cfg.gpus > MAX_GPUS then 3
                  else 0
    ensures rc != 0 && out != null ==> out[..] == old(out[..])
    ensures rc == 0 ==> Least(old(entryBytes[..n]), cfg.budgets[..cfg.gpus], out[..n])
    ensures rc == 0 ==> out[n..] == old(out[n..])
  {
    if entryBytes == null || cfg == null || out == null {
      return 1;
    }
    if n < 0 {
      return 2;
    }
    if cfg.gpus < 0 || cfg.gpus > MAX_GPUS {
      return 3;
    }
    var budget := new nat[MAX_GPUS](i => 0);
    var g := cfg.gpus;
    for k := 0 to g
      invariant forall i :: 0 <= i < k ==> budget[i] == cfg.budgets[i]
      invariant out[..] == old(out[..]) && entryBytes[..n] == old(entryBytes[..n])
    {
      budget[k] := cfg.budgets[k];
    }
    ghost var bytes, budgets := entryBytes[..n], cfg.budgets[..g];
    rc := Pack(entryBytes, n, budget, g, out, bytes, budgets);
  }

  /** Every entry so far sits at or before the cursor. */
  ghost predicate Behind(budgets: seq<nat>, p: seq<int>, d: int) {
    forall e :: 0 <= e < |p| ==> Tier(p[e], |budgets|) <= d
  }

  /** The state of the greedy loop between entries. */
  ghost predicate Packed(bytes: seq<nat>, budgets: seq<nat>, p: seq<int>, free: seq<nat>, d: int) {
    && Least(bytes, budgets, p) && Free(bytes, budgets, p, free)
    && Behind(budgets, p, d) && 0 <= d <= |budgets|
  }

  lemma EmptyPacked(bytes: seq<nat>, budgets: seq<nat>)
    ensures Packed(bytes, budgets, [], budgets, 0)
  {
    assert forall d :: Fits(bytes, budgets, [], d);
  }

  /** An entry no earlier than the last one placed can only be at or after the cursor. */
  lemma CursorReached(bytes: seq<nat>, budgets: seq<nat>, p: seq<int>, d: int)
    requires Least(bytes, budgets, p) && |p| < |bytes|
    requires d == 0 || Reached(bytes, budgets, p, d)
    ensures Reached(bytes, budgets, p, d)
  {
    if d == 0 {
      forall q | ValidPlacement(bytes, budgets, q) && |q| == |p| + 1
        ensures Tier(q[|p|], |budgets|) >= 0
      {
        assert q[|p|] == CPU || 0 <= q[|p|] < |budgets|;
      }
    }
  }

  /** Monotone placements inherit the tier the previous entry had to reach. */
  lemma ReachedNext(bytes: seq<nat>, budgets: seq<nat>, p: seq<int>, device: int, d: int)
    requires Reached(bytes, budgets, p, d) && |p| + 1 < |bytes|
    ensures Reached(bytes, budgets, p + [device], d)
  {
    var r := p + [device];
    forall q | ValidPlacement(bytes, budgets, q) && |q| == |r| + 1
      ensures Tier(q[|r|], |budgets|) >= d
    {
      ValidPrefix(bytes, budgets, q, |r|);
      assert q[..|r|][|p|] == q[|p|];
      assert Tier(q[|p|], |budgets|) <= Tier(q[|r|], |budgets|);
    }
  }

  lemma PlacePacked(bytes: seq<nat>, budgets: seq<nat>, p: seq<int>, free: seq<nat>, d: int, device: int,
                    free': seq<nat>)
    requires Packed(bytes, budgets, p, free, d) && Reached(bytes, budgets, p, d) && |p| < |bytes|
    requires if d < |budgets|
             then device == d && bytes[|p|] <= free[d] && free' == free[d := free[d] - bytes[|p|]]
             else device == CPU && free' == free
    ensures Packed(bytes, budgets, p + [device], free', d)
  {
    PlaceValid(bytes, budgets, p, free, device, d);
    PlaceLeast(bytes, budgets, p, device, d);
    forall k | 0 <= k < |budgets|
      ensures free'[k] == budgets[k] - Used(bytes, p + [device], k, |p| + 1)
    {
      PlaceUsed(bytes, p, device, k);
    }
  }

  /** The greedy loop over a private copy of the budgets. */
  method Pack(entryBytes: array<nat>, n: nat, budget: array<nat>, g: nat, out: array<int>,
              ghost bytes: seq<nat>, ghost budgets: seq<nat>)
    returns (rc: int)
    requires n <= entryBytes.Length && n <= out.Length && g <= budget.Length
    requires entryBytes != budget
    requires bytes == entryBytes[..n] && budgets == budget[..g]
    modifies budget, out
    ensures rc == 0 && Least(bytes, budgets, out[..n]) && out[n..] == old(out[n..])
  {
    hide Least, Free, Reached, Behind;
    EmptyPacked(bytes, budgets);
    var d := 0;
    for e := 0 to n
      invariant 0 <= d <= g && bytes == entryBytes[..n]
      invariant Packed(bytes, budgets, out[..e], budget[..g], d)
      invariant e < n ==> d == 0 || Reached(bytes, budgets, out[..e], d)
      invariant out[n..] == old(out[n..])
    {
      ghost var p, free := out[..e], budget[..g];
      assert entryBytes[e] == bytes[e];
      CursorReached(bytes, budgets, p, d);
      d := NextDevice(entryBytes[e], budget, g, d, bytes, budgets, p);
      ghost var device := if d < g then d else CPU;
      if d < g {
        out[e] := d;
        budget[d] := budget[d] - entryBytes[e];
        assert budget[..g] == free[d := free[d] - bytes[e]];
      } else {
        out[e] := CPU;
      }
      assert out[..e + 1] == p + [device];
      PlacePacked(bytes, budgets, p, free, d, device, budget[..g]);
      if e + 1 < n {
        ReachedNext(bytes, budgets, p, device, d);
      }
    }
    rc := 0;
  }

  /** Advance until the device can hold the entry, or the devices run out. */
  method NextDevice(size: nat, budget: array<nat>, g: nat, from: nat,
                    ghost bytes: seq<nat>, ghost budgets: seq<nat>, ghost p: seq<int>)
    returns (d: nat)
    requires g <= budget.Length && |budgets| == g && |p| < |bytes| && size == bytes[|p|]
    requires Packed(bytes, budgets, p, budget[..g], from) && Reached(bytes, budgets, p, from)
    ensures from <= d <= g && (d < g ==> size <= budget[d])
    ensures Packed(bytes, budgets, p, budget[..g], d) && Reached(bytes, budgets, p, d)
  {
    hide Least, Free, Reached, Used;
    d := from;
    while d < g && size > budget[d]
      invariant from <= d <= g
      invariant Packed(bytes, budgets, p, budget[..g], d) && Reached(bytes, budgets, p, d)
    {
      assert budget[..g][d] == budget[d];
      Advance(bytes, budgets, p, budget[..g], d);
      d := d + 1;
    }
  }

  // ------------------------------------------------------------------------------------
  // What being the least valid placement means
  // ------------------------------------------------------------------------------------

  /** There is only one. */
  lemma LeastUnique(bytes: seq<nat>, budgets: seq<nat>, p: seq<int>, q: seq<int>)
    requires Least(bytes, budgets, p) && Least(bytes, budgets, q) && |p| == |q|
    ensures p == q
  {
    assert Ahead(budgets, p, q) && Ahead(budgets, q, p);
    forall e | 0 <= e < |p| ensures p[e] == q[e] {
      assert Tier(p[e], |budgets|) == Tier(q[e], |budgets|);
    }
  }

  /** The entries kept on devices are a prefix, and the longest any valid placement keeps. */
  lemma LongestResidentPrefix(bytes: seq<nat>, budgets: seq<nat>, p: seq<int>, q: seq<int>, n: nat)
    requires Least(bytes, budgets, p) && ValidPlacement(bytes, budgets, q) && |q| == |p| && n <= |p|
    requires forall e :: 0 <= e < n ==> q[e] != CPU
    ensures forall e :: 0 <= e < n ==> p[e] != CPU
    ensures forall e, f :: 0 <= e < f < |p| && p[e] == CPU ==> p[f] == CPU
  {
    assert Ahead(budgets, p, q);
    forall e | 0 <= e < n ensures p[e] != CPU {
      assert Tier(q[e], |budgets|) < |budgets|;
    }
    forall e, f | 0 <= e < f < |p| && p[e] == CPU ensures p[f] == CPU {
      assert Tier(p[e], |budgets|) <= Tier(p[f], |budgets|);
    }
  }
}
