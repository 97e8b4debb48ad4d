/** Bit-serial multiplication and division: what one turn of the shift loops keeps, for registers of any width. */
module Serial {
  import opened Bits
  import opened Alu

  /** A restoring division of `v` by `d` under way in a register of modulus `w`: `v` is (q*d + r) above the `l` not yet
      brought down, `p` the weight of what is above, and the dividend cells hold `l` above `g`, what has been shifted
      in below it. */
  ghost predicate Dividing(v: nat, d: nat, q: nat, r: nat, l: nat, p: nat, s: nat, g: nat, cells: nat, w: nat) {
    && v == (q * d + r) * p + l && l < p
    && cells == l * s + g && g < s
    && p * s == w
  }

  /** Shifting the cells brings the top bit of `l` out. */
  lemma BitOut(l: nat, g: nat, s: nat, half: nat, cells: nat, w: nat, c: bool, up: nat)
    requires l < 2 * half && cells == l * s + g && g < s && 2 * (half * s) == w
    requires up + w * Bit(c) == 2 * cells && up < w
    ensures (c <==> l >= half) && up == (l - half * Bit(c)) * (2 * s) + 2 * g
  {
    if l >= half {
      MulMono(s, half, l);
      assert s * l == l * s && s * half == half * s;
      assert c;
      assert (l - half) * (2 * s) == 2 * (l * s) - 2 * (half * s);
    } else {
      MulMono(s, l + 1, half);
      assert s * (l + 1) == l * s + s && s * half == half * s;
      assert !c;
      assert l * (2 * s) == 2 * (l * s);
    }
  }

  lemma BringDown(a: nat, half: nat, c: bool)
    ensures a * (2 * half) + half * Bit(c) == (2 * a + Bit(c)) * half
  {
  }

  lemma QuotientBit(q: nat, d: nat, r: nat, c: bool, bit: bool)
    ensures (2 * q + Bit(bit)) * d == 2 * (q * d) + (if bit then d else 0)
  {
  }

  lemma Halved(p: nat, half: nat, s: nat)
    requires p == 2 * half
    ensures p * s == 2 * (half * s) == half * (2 * s)
  {
  }

  /** One turn: shift, then take the divisor off when it fits. */
  lemma DivStep(v: nat, d: nat, q: nat, r: nat, l: nat, p: nat, s: nat, g: nat, cells: nat, w: nat,
                half: nat, c: bool, bit: bool, gbit: bool, r': nat, cells': nat)
    requires Dividing(v, d, q, r, l, p, s, g, cells, w) && p == 2 * half
    requires cells' + w * Bit(c) == 2 * cells + Bit(gbit) && Bit(gbit) <= cells' < w + Bit(gbit)
    requires r' == 2 * r + Bit(c) - (if bit then d else 0)
    ensures var l' := l - half * Bit(c);
            l' >= 0 && Dividing(v, d, 2 * q + Bit(bit), r', l', half, 2 * s, 2 * g + Bit(gbit), cells', w)
  {
    Halved(p, half, s);
    BitOut(l, g, s, half, cells, w, c, cells' - Bit(gbit));
    BringDown(q * d + r, half, c);
    QuotientBit(q, d, r, c, bit);
  }

  lemma DivDone(v: nat, d: nat, q: nat, r: nat, l: nat, p: nat, s: nat, g: nat, cells: nat, w: nat)
    requires Dividing(v, d, q, r, l, p, s, g, cells, w) && p == 1 && r < d
    ensures cells == g && q == v / d && r == v % d
  {
    assert l * s == 0;
    assert (q * d + r) * 1 == d * q + r;
    ModUnique(v, d, q, r);
  }

  lemma DivStart(v: nat, d: nat, w: nat)
    requires v < w
    ensures Dividing(v, d, 0, 0, v, w, 1, 0, v, w)
  {
  }

  /** One turn of shift-and-add: what is still to be added shrinks by the bit just used, up to multiples of `w`. */
  lemma MulStep(total: int, fm: nat, mt: nat, a: nat, t: int, w: nat, c: bool, fm': nat, k: nat, mt': nat, j: nat)
    requires fm + mt * (2 * a + Bit(c)) == total - w * t
    requires fm' + w * k == fm + (if c then mt else 0)
    requires mt' + w * j == 2 * mt
    ensures fm' + mt' * a == total - w * (t + k + j * a)
  {
    assert mt * (2 * a + Bit(c)) == (2 * mt) * a + (if c then mt else 0);
    assert (2 * mt) * a == mt' * a + (w * j) * a;
    assert (w * j) * a == w * (j * a);
    assert w * (t + k + j * a) == w * t + w * k + w * (j * a);
  }
}
