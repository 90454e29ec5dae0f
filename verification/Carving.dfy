/** How a connection cuts one page-aligned allocation into send and receive buffers.  The stride is
    computed in 32-bit arithmetic, which bounds the buffer size for which the cut is right. */
module Carving {
  import opened Base

  const U32 := 0x1_0000_0000

  datatype BufPair = BufPair(send: nat, sendCap: nat, recv: nat, recvCap: nat)

  /** The configured size rounded up to whole pages. */
  function Rounded(memSize: nat, page: nat): (len: nat)
    requires page >= 1
    ensures len >= memSize && len % page == 0 && len < memSize + page
  {
    if memSize % page == 0 then memSize
    else
      MultipleOf(page, memSize / page + 1);
      page * (memSize / page + 1)
  }

  lemma MultipleOf(page: nat, k: nat)
    requires page >= 1
    ensures (page * k) % page == 0
  {
    if k > 0 {
      MultipleOf(page, k - 1);
      assert page * k == page * (k - 1) + page;
      ModShift(page * (k - 1), page);
    }
  }

  lemma ModShift(x: nat, page: nat)
    requires page >= 1
    ensures (x + page) % page == x % page
  {
    assert x + page == (x / page + 1) * page + x % page;
    DivModUnique(x + page, page, x / page + 1, x % page);
  }

  lemma MulMono(a: nat, b: nat, d: nat)
    requires a <= b
    ensures a * d <= b * d
  {
    assert b * d == a * d + (b - a) * d;
  }

  lemma BelowNext(q: nat, r: nat, d: nat)
    requires q * d < (r + 1) * d
    ensures q <= r
  {
    if r + 1 <= q {
      MulMono(r + 1, q, d);
    }
  }

  lemma DivModUnique(a: nat, d: nat, q: nat, r: nat)
    requires d >= 1 && a == q * d + r && r < d
    ensures a / d == q && a % d == r
  {
    var k, m := a / d, a % d;
    assert a == k * d + m;
    assert (k + 1) * d == k * d + d && (q + 1) * d == q * d + d;
    BelowNext(q, k, d);
    BelowNext(k, q, d);
  }

  function MemLen(len: nat): nat {
    len % U32
  }

  function Stride(len: nat): nat {
    (MemLen(len) * 2) % U32
  }

  function PairAt(base: nat, len: nat, i: nat): BufPair {
    BufPair(base + i * Stride(len), MemLen(len), base + MemLen(len) + i * Stride(len), MemLen(len))
  }

  /** The pairs lie one stride apart. */
  predicate Strided(ps: seq<BufPair>, base: nat, len: nat) {
    forall i :: 0 <= i < |ps| ==> ps[i] == PairAt(base, len, i)
  }

  /** The constructor's loop; `total` is the size of the allocation, 2 * memNum buffers of `len`.  What it
      hands out, with the capacities it gives, tiles the allocation exactly when no arithmetic wraps. */
  method Carve(base: nat, len: nat, memNum: nat) returns (pairs: seq<BufPair>, free: seq<nat>)
    requires memNum >= 1
    ensures |pairs| == memNum && Strided(pairs, base, len) && free == Range(0, memNum)
    ensures Tiles(pairs, base, 2 * memNum * len) <==> len < U32 / 2 || (memNum == 1 && len < U32)
  {
    var total := len * memNum * 2;
    DivideBack(len, memNum);
    var memLen := (total / (2 * memNum)) % U32;
    var send, recv := base, base + memLen;
    pairs, free := [], [];
    for i := 0 to memNum
      invariant |pairs| == i && Strided(pairs, base, len)
      invariant free == Range(0, i)
      invariant send == base + i * Stride(len) && recv == base + memLen + i * Stride(len)
    {
      pairs := pairs + [BufPair(send, memLen, recv, memLen)];
      free := free + [i];
      send := send + (memLen * 2) % U32;
      recv := recv + (memLen * 2) % U32;
    }
    TilesIffLengthFits(pairs, base, len);
  }

  lemma DivideBack(len: nat, memNum: nat)
    requires memNum >= 1
    ensures (len * memNum * 2) / (2 * memNum) == len
  {
    assert len * memNum * 2 == len * (2 * memNum);
    DivExact(len, 2 * memNum);
  }

  lemma DivExact(q: nat, d: nat)
    requires d >= 1
    ensures (q * d) / d == q
  {
    if q > 0 {
      DivExact(q - 1, d);
      assert q * d == (q - 1) * d + d;
      DivStep((q - 1) * d, d);
    }
  }

  lemma DivStep(x: nat, d: nat)
    requires d >= 1
    ensures (x + d) / d == x / d + 1
  {
    assert x + d == (x / d + 1) * d + x % d;
    DivModUnique(x + d, d, x / d + 1, x % d);
  }

  /** Region 2i is the send buffer of pair i, region 2i+1 its receive buffer. */
  function Start(ps: seq<BufPair>, r: nat): nat
    requires r < 2 * |ps|
  {
    if r % 2 == 0 then ps[r / 2].send else ps[r / 2].recv
  }

  function Cap(ps: seq<BufPair>, r: nat): nat
    requires r < 2 * |ps|
  {
    if r % 2 == 0 then ps[r / 2].sendCap else ps[r / 2].recvCap
  }

  predicate Inside(ps: seq<BufPair>, r: nat, addr: nat)
    requires r < 2 * |ps|
  {
    Start(ps, r) <= addr < Start(ps, r) + Cap(ps, r)
  }

  predicate Within(ps: seq<BufPair>, r: nat, base: nat, size: nat)
    requires r < 2 * |ps|
  {
    base <= Start(ps, r) && Start(ps, r) + Cap(ps, r) <= base + size
  }

  ghost predicate Only(ps: seq<BufPair>, addr: nat, r: nat) {
    r < 2 * |ps| && Inside(ps, r, addr) && forall q: nat :: q < 2 * |ps| && Inside(ps, q, addr) ==> q == r
  }

  ghost predicate Covered(ps: seq<BufPair>, addr: nat) {
    exists r: nat :: Only(ps, addr, r)
  }

  /** All buffers lie inside the allocation, and every address of it is in exactly one of them. */
  ghost predicate Tiles(ps: seq<BufPair>, base: nat, size: nat) {
    && (forall addr :: base <= addr < base + size ==> Covered(ps, addr))
    && (forall r: nat :: r < 2 * |ps| ==> Within(ps, r, base, size))
  }

  /** Without wrap-around the regions lie one after the other. */
  lemma StartsInLine(ps: seq<BufPair>, base: nat, len: nat, r: nat)
    requires Strided(ps, base, len) && r < 2 * |ps| && (len < U32 / 2 || (|ps| == 1 && len < U32))
    ensures Cap(ps, r) == len && Start(ps, r) == base + r * len
  {
    if len < U32 / 2 {
      assert MemLen(len) == len && Stride(len) == 2 * len;
    } else {
      assert MemLen(len) == len && r / 2 == 0;
    }
    assert ps[r / 2] == PairAt(base, len, r / 2);
    var st := Stride(len);
    hide Stride, MemLen;
    InLine(r, len, st);
  }

  lemma InLine(r: nat, len: nat, st: nat)
    requires st == 2 * len || r < 2
    ensures r / 2 * st + (if r % 2 == 0 then 0 else len) == r * len
  {
    var i := r / 2;
    if r >= 2 {
      assert i * (2 * len) == (2 * i) * len;
    } else {
      assert i == 0;
    }
    assert r == 2 * i + r % 2;
    assert (2 * i + r % 2) * len == (2 * i) * len + r % 2 * len;
  }

  lemma RegionOf(off: nat, len: nat, m: nat) returns (r: nat)
    requires off < m * len
    ensures r < m && r * len <= off < r * len + len
  {
    if off < len {
      r := 0;
    } else {
      assert (m - 1) * len == m * len - len;
      r := RegionOf(off - len, len, m - 1);
      r := r + 1;
    }
  }

  lemma RegionUnique(q: nat, r: nat, len: nat, off: nat)
    requires q * len <= off < q * len + len && r * len <= off < r * len + len
    ensures q == r
  {
    assert (q + 1) * len == q * len + len && (r + 1) * len == r * len + len;
    BelowNext(q, r, len);
    BelowNext(r, q, len);
  }

  /** Nothing ends above the last pair, and that is below the end of the allocation when the length or
      the stride has been cut off. */
  lemma LastAddressMissed(ps: seq<BufPair>, base: nat, len: nat, r: nat)
    requires Strided(ps, base, len) && r < 2 * |ps|
    requires len >= U32 || (len >= U32 / 2 && |ps| >= 2)
    ensures base + 2 * |ps| * len - 1 >= 0 && !Inside(ps, r, base + 2 * |ps| * len - 1)
  {
    var ml, st, i, n := MemLen(len), Stride(len), r / 2, |ps|;
    MulMono(i, n - 1, st);
    assert Start(ps, r) + Cap(ps, r) <= base + 2 * ml + (n - 1) * st;
    CutShort(ml, st, len, n);
  }

  /** Both numbers are at most what they should be, and one of them is less where it counts. */
  lemma CutShort(ml: nat, st: nat, len: nat, n: nat)
    requires n >= 1 && ml <= len && st <= 2 * len && (ml < len || (st < 2 * len && n >= 2))
    ensures 2 * ml + (n - 1) * st < 2 * n * len
  {
    var d := 2 * len - st;
    assert (n - 1) * (2 * len) == (n - 1) * (st + d) == (n - 1) * st + (n - 1) * d;
    assert (n - 1) * (2 * len) == 2 * n * len - 2 * len;
    if n >= 2 {
      MulMono(1, n - 1, d);
    }
  }

  /** The cut is right exactly when a buffer is shorter than 2^31 bytes, or below 2^32 for one pair. */
  lemma TilesIffLengthFits(ps: seq<BufPair>, base: nat, len: nat)
    requires Strided(ps, base, len) && ps != []
    ensures Tiles(ps, base, 2 * |ps| * len) <==> len < U32 / 2 || (|ps| == 1 && len < U32)
  {
    if len < U32 / 2 || (|ps| == 1 && len < U32) {
      FittingTiles(ps, base, len);
    } else {
      var addr := base + 2 * |ps| * len - 1;
      MulMono(1, 2 * |ps|, len);
      forall r: nat | r < 2 * |ps|
        ensures !Inside(ps, r, addr)
      {
        LastAddressMissed(ps, base, len, r);
      }
      assert base <= addr < base + 2 * |ps| * len;
      assert !Covered(ps, addr);
    }
  }

  lemma FittingTiles(ps: seq<BufPair>, base: nat, len: nat)
    requires Strided(ps, base, len) && (len < U32 / 2 || (|ps| == 1 && len < U32))
    ensures Tiles(ps, base, 2 * |ps| * len)
  {
    forall addr | base <= addr < base + 2 * |ps| * len
      ensures Covered(ps, addr)
    {
      var r := RegionOf(addr - base, len, 2 * |ps|);
      StartsInLine(ps, base, len, r);
      forall q: nat | q < 2 * |ps| && Inside(ps, q, addr)
        ensures q == r
      {
        StartsInLine(ps, base, len, q);
        RegionUnique(q, r, len, addr - base);
      }
      assert Only(ps, addr, r);
    }
    forall r: nat | r < 2 * |ps|
      ensures Within(ps, r, base, 2 * |ps| * len)
    {
      StartsInLine(ps, base, len, r);
      MulMono(r + 1, 2 * |ps|, len);
      assert (r + 1) * len == r * len + len;
    }
  }

  /** Every region of a right cut starts on a page. */
  lemma RegionsAligned(ps: seq<BufPair>, base: nat, memSize: nat, page: nat, r: nat)
    requires page >= 1 && base % page == 0 && r < 2 * |ps| && Strided(ps, base, Rounded(memSize, page))
    requires Rounded(memSize, page) < U32 / 2 || (|ps| == 1 && Rounded(memSize, page) < U32)
    ensures Start(ps, r) % page == 0
  {
    var len := Rounded(memSize, page);
    StartsInLine(ps, base, len, r);
    AlignedSum(base, len, page, r);
  }

  lemma {:induction false} AlignedSum(base: nat, len: nat, page: nat, r: nat)
    requires page >= 1 && base % page == 0 && len % page == 0
    ensures (base + r * len) % page == 0
  {
    if r > 0 {
      AlignedSum(base, len, page, r - 1);
      assert base + r * len == (base + (r - 1) * len) + len;
      ModAdd(base + (r - 1) * len, len, page);
    }
  }

  lemma {:induction false} ModAdd(a: nat, b: nat, page: nat)
    requires page >= 1 && a % page == 0 && b % page == 0
    ensures (a + b) % page == 0
  {
    if b >= page {
      ModAdd(a, b - page, page) by {
        ModShift(b - page, page);
      }
      ModShift(a + b - page, page);
    }
  }
}
