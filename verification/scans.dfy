/**
 * Both passes of `build` walk the keycodes in order and append what each
 * keycode contributes. This module states membership in such a scan once,
 * for any element type, so that the facts about the two passes need not
 * look inside what a keycode contributes.
 */
module Scans {

  /** One step of a scan that appends `here` to `prev`: `x` is in `whole` exactly when it is in one of them. */
  lemma InStep<T>(whole: seq<T>, prev: seq<T>, here: seq<T>, x: T)
    requires whole == prev + here
    ensures x in whole <==> x in prev || x in here
  {
  }

  /**
   * `scan(e)` is empty up to `lo` and, above it, `scan(e - 1)` followed by
   * `chunk(e - 1)`: the concatenation of `chunk(lo)`, ..., `chunk(e - 1)`.
   */
  ghost predicate IsScan<T>(scan: nat -> seq<T>, chunk: nat -> seq<T>, lo: nat) {
    && (forall e: nat {:trigger scan(e)} :: e <= lo ==> scan(e) == [])
    && (forall e: nat {:trigger chunk(e)} :: lo <= e ==> scan(e + 1) == scan(e) + chunk(e))
  }

  /** What any index in `lo..end-1` contributes is in the scan up to `end`. */
  lemma {:induction false} ScanHas<T>(scan: nat -> seq<T>, chunk: nat -> seq<T>, lo: nat, end: nat, k: nat, x: T)
    requires IsScan(scan, chunk, lo)
    requires lo <= k < end && x in chunk(k)
    ensures x in scan(end)
  {
    InStep(scan(end), scan(end - 1), chunk(end - 1), x);
    if k < end - 1 {
      ScanHas(scan, chunk, lo, end - 1, k, x);
    }
  }

  /** Whatever is in the scan up to `end` is contributed by some index in `lo..end-1`. */
  lemma {:induction false} ScanFrom<T>(scan: nat -> seq<T>, chunk: nat -> seq<T>, lo: nat, end: nat, x: T)
    requires IsScan(scan, chunk, lo)
    requires x in scan(end)
    ensures exists k: nat :: lo <= k < end && x in chunk(k)
  {
    if lo < end {
      InStep(scan(end), scan(end - 1), chunk(end - 1), x);
      if x !in chunk(end - 1) {
        ScanFrom(scan, chunk, lo, end - 1, x);
      }
    }
  }
}
