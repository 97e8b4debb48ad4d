/** How a 16-bit address decomposes into (tag, set, offset), and which geometries are accepted. */
module Geometry {
  import opened Bits

  datatype Repl = LRU | FIFO | Random
  datatype WPol = Back | Through

  /** The knobs of one cache: geometry, policies and miss penalty. */
  datatype Config = Config(lineBytes: nat, ways: nat, sets: nat,
                           repl: Repl, wpol: WPol, writeAlloc: bool, missPenalty: nat)

  const MAX_LINES: nat := 4096
  const SPACE: nat := 0x1_0000

  /** What a successful `cache_config` guarantees. */
  ghost predicate Valid(cfg: Config) {
    && Power(cfg.lineBytes) && cfg.lineBytes <= 256
    && Power(cfg.sets)
    && cfg.ways >= 1
    && cfg.sets * cfg.ways <= MAX_LINES
    && cfg.sets * cfg.ways * cfg.lineBytes <= SPACE
  }

  /** `cache_defaults`: 256 bytes, 16-byte lines, 2 ways, LRU, write-back, write-allocate, penalty 8. */
  const DEFAULTS := Config(16, 2, 8, LRU, Back, true, 8)

  lemma DefaultsValid()
    ensures Valid(DEFAULTS) && Log2(DEFAULTS.lineBytes) == 4 && Log2(DEFAULTS.sets) == 3
  {
    assert Power(2) && Power(4) && Power(8) && Power(16);
    assert Log2(2) == 1 && Log2(4) == 2;
  }

  function OffOf(cfg: Config, a: nat): nat
    requires cfg.lineBytes > 0
  {
    a % cfg.lineBytes
  }

  function BlockOf(cfg: Config, a: nat): nat
    requires cfg.lineBytes > 0
  {
    a / cfg.lineBytes
  }

  function SetOf(cfg: Config, a: nat): (s: nat)
    requires cfg.lineBytes > 0 && cfg.sets > 0
    ensures s < cfg.sets
  {
    BlockOf(cfg, a) % cfg.sets
  }

  function TagOf(cfg: Config, a: nat): nat
    requires cfg.lineBytes > 0 && cfg.sets > 0
  {
    BlockOf(cfg, a) / cfg.sets
  }

  /** `addr & ~(line_bytes - 1)`: the address of byte 0 of the line covering `a`. */
  function BaseOf(cfg: Config, a: nat): nat
    requires cfg.lineBytes > 0
  {
    a - OffOf(cfg, a)
  }

  lemma {:induction false} PowersNest(m: nat, n: nat)
    requires m <= n
    ensures Pow2(n) % Pow2(m) == 0
  {
    Pow2Add(m, n - m);
    ModUnique(Pow2(n), Pow2(m), Pow2(n - m), 0);
  }

  lemma PowerDivides(p: nat, n: nat)
    requires Power(p) && p <= Pow2(n)
    ensures Pow2(n) % p == 0
  {
    PowerLog(p);
    var k := Log2(p);
    if k > n {
      Pow2Mono(n, k);
    }
    PowersNest(k, n);
  }

  /** An aligned block stays inside every larger power-of-two region it starts in. */
  lemma BlockInRegion(p: nat, n: nat, a: nat)
    requires Power(p) && p <= Pow2(n)
    ensures a / Pow2(n) * Pow2(n) <= a - a % p
    ensures a - a % p + p <= a / Pow2(n) * Pow2(n) + Pow2(n)
  {
    PowerDivides(p, n);
    Exact(Pow2(n), p);
    BlockInMultiple(p, Pow2(n) / p, Pow2(n), a);
  }

  lemma Exact(r: nat, p: nat)
    requires p > 0 && r > 0 && r % p == 0
    ensures p * (r / p) == r && r / p > 0
  {
  }

  lemma BlockInMultiple(p: nat, k: nat, r: nat, a: nat)
    requires p > 0 && k > 0 && r > 0 && r == p * k
    ensures a / r * r <= a - a % p
    ensures a - a % p + p <= a / r * r + r
  {
    DivDiv(a, p, k);
    var b := a / p;
    var q := b / k;
    assert a - a % p == p * b;
    MulMono(p, k * q, b);
    MulMono(p, b + 1, k * q + k);
    assert p * (k * q) == q * r;
    assert p * (k * q + k) == q * r + r;
  }

  lemma Pow2Consts()
    ensures Pow2(8) == 256 && Pow2(16) == SPACE
  {
    assert Pow2(4) == 16;
    Pow2Add(4, 4);
    Pow2Add(8, 8);
  }

  /** The line covering `a` lies in the address space and inside one 256-byte page. */
  lemma LineBounds(cfg: Config, a: nat)
    requires Valid(cfg) && a < SPACE
    ensures BaseOf(cfg, a) <= a < BaseOf(cfg, a) + cfg.lineBytes <= SPACE
    ensures a / 256 * 256 <= BaseOf(cfg, a) && BaseOf(cfg, a) + cfg.lineBytes <= a / 256 * 256 + 256
  {
    Pow2Consts();
    BlockInRegion(cfg.lineBytes, 8, a);
    BlockInRegion(cfg.lineBytes, 16, a);
    ModUnique(a, SPACE, 0, a);
  }

  /** Two addresses are in the same line exactly when they share tag and set. */
  lemma SameLine(cfg: Config, a: nat, b: nat)
    requires cfg.lineBytes > 0 && cfg.sets > 0
    ensures (TagOf(cfg, a) == TagOf(cfg, b) && SetOf(cfg, a) == SetOf(cfg, b)) <==> BaseOf(cfg, a) == BaseOf(cfg, b)
    ensures BaseOf(cfg, a) <= b < BaseOf(cfg, a) + cfg.lineBytes <==> BaseOf(cfg, a) == BaseOf(cfg, b)
  {
    SameBlock(cfg, a, b);
    DivSplit(BlockOf(cfg, a), cfg.sets);
    DivSplit(BlockOf(cfg, b), cfg.sets);
  }

  lemma SameBlock(cfg: Config, a: nat, b: nat)
    requires cfg.lineBytes > 0
    ensures BaseOf(cfg, a) == BaseOf(cfg, b) <==> BlockOf(cfg, a) == BlockOf(cfg, b)
    ensures BaseOf(cfg, a) <= b < BaseOf(cfg, a) + cfg.lineBytes <==> BaseOf(cfg, a) == BaseOf(cfg, b)
  {
    var l, x, y := cfg.lineBytes, BlockOf(cfg, a), BlockOf(cfg, b);
    DivSplit(a, l);
    DivSplit(b, l);
    MulOrder(l, x, y);
    MulOrder(l, y, x);
  }

  /** Recomposition: tag, set and offset determine the address. */
  lemma Recompose(cfg: Config, a: nat)
    requires cfg.lineBytes > 0 && cfg.sets > 0
    ensures a == (TagOf(cfg, a) * cfg.sets + SetOf(cfg, a)) * cfg.lineBytes + OffOf(cfg, a)
    ensures BaseOf(cfg, BaseOf(cfg, a)) == BaseOf(cfg, a)
    ensures TagOf(cfg, BaseOf(cfg, a)) == TagOf(cfg, a)
    ensures SetOf(cfg, BaseOf(cfg, a)) == SetOf(cfg, a)
  {
    var l, x := cfg.lineBytes, BlockOf(cfg, a);
    assert a == l * x + OffOf(cfg, a);
    assert x == TagOf(cfg, a) * cfg.sets + SetOf(cfg, a);
    ModUnique(l * x, l, x, 0);
    SameLine(cfg, a, BaseOf(cfg, a));
  }

  /** The masks and shifts of `cache_decode` compute the same triple. */
  lemma MaskedDecode(cfg: Config, a: nat)
    requires Valid(cfg)
    ensures And(a, cfg.lineBytes - 1) == OffOf(cfg, a)
    ensures And(Shr(a, Log2(cfg.lineBytes)), cfg.sets - 1) == SetOf(cfg, a)
    ensures Shr(a, Log2(cfg.lineBytes) + Log2(cfg.sets)) == TagOf(cfg, a)
  {
    var m, n := Log2(cfg.lineBytes), Log2(cfg.sets);
    PowerLog(cfg.lineBytes);
    PowerLog(cfg.sets);
    MaskIsMod(a, m);
    MaskIsMod(BlockOf(cfg, a), n);
    ShrIsDiv(a, m);
    ShrIsDiv(a, m + n);
    assert Shr(a, m + n) == TagOf(cfg, a) by {
      Pow2Add(m, n);
      DivDiv(a, cfg.lineBytes, cfg.sets);
    }
  }
}
