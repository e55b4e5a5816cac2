/** The capability bits of `Permission` (app/models.py) and the bit-level
    arithmetic needed to talk about them. Python integers are unbounded, so
    the masks are plain naturals and bitwise AND/OR are defined digit by
    digit in base 2. */
module Permission {

  const Follow: nat := 0x01
  const Comment: nat := 0x02
  const WriteArticles: nat := 0x04
  const ModerateComments: nat := 0x08
  const Administer: nat := 0x80

  /** Python's `a & b` on non-negative integers. */
  function BitAnd(a: nat, b: nat): nat
    decreases a
  {
    if a == 0 || b == 0 then 0
    else 2 * BitAnd(a / 2, b / 2) + (if a % 2 == 1 && b % 2 == 1 then 1 else 0)
  }

  /** Python's `a | b` on non-negative integers. */
  function BitOr(a: nat, b: nat): nat
    decreases a + b
  {
    if a == 0 then b
    else if b == 0 then a
    else 2 * BitOr(a / 2, b / 2) + (if a % 2 == 1 || b % 2 == 1 then 1 else 0)
  }

  /** Bit `k` (weight 2^k) of `x` is set. */
  predicate Bit(x: nat, k: nat) {
    if k == 0 then x % 2 == 1 else Bit(x / 2, k - 1)
  }

  /** The masks `Role.insert_roles` seeds, built exactly as the source
      builds them. */
  const UserMask: nat := BitOr(BitOr(Follow, Comment), WriteArticles)
  const ModeratorMask: nat := BitOr(BitOr(BitOr(Follow, Comment), WriteArticles), ModerateComments)
  const AdministratorMask: nat := 0xff

  /** The seeded masks have the values the ORs evaluate to. */
  lemma SeedMaskValues()
    ensures UserMask == 0x07
    ensures ModeratorMask == 0x0f
    ensures AdministratorMask == 0xff
  {
  }

  /** Every bit of `a & b` is set exactly when it is set in both operands. */
  lemma {:induction false} BitOfAnd(a: nat, b: nat, k: nat)
    ensures Bit(BitAnd(a, b), k) == (Bit(a, k) && Bit(b, k))
    decreases k
  {
    if a == 0 || b == 0 {
      ZeroHasNoBits(k);
    } else {
      var c := if a % 2 == 1 && b % 2 == 1 then 1 else 0;
      var x := BitAnd(a / 2, b / 2);
      assert BitAnd(a, b) == 2 * x + c;
      assert (2 * x + c) % 2 == c && (2 * x + c) / 2 == x;
      if k > 0 {
        BitOfAnd(a / 2, b / 2, k - 1);
      }
    }
  }

  /** No bit of zero is set. */
  lemma {:induction false} ZeroHasNoBits(k: nat)
    ensures !Bit(0, k)
  {
    if k > 0 {
      ZeroHasNoBits(k - 1);
    }
  }

  /** A natural number is determined by its bits. */
  lemma {:induction false} BitsDetermine(x: nat, y: nat)
    requires forall k: nat :: Bit(x, k) == Bit(y, k)
    ensures x == y
    decreases x + y
  {
    if x + y > 0 {
      assert Bit(x, 0) == Bit(y, 0);
      forall k: nat
        ensures Bit(x / 2, k) == Bit(y / 2, k)
      {
        assert Bit(x, k + 1) == Bit(y, k + 1);
      }
      BitsDetermine(x / 2, y / 2);
    }
  }

  function Pow2(n: nat): (r: nat)
    ensures r > 0
  {
    if n == 0 then 1 else 2 * Pow2(n - 1)
  }

  /** A power of two has exactly one bit set. */
  lemma {:induction false} PowerBit(n: nat, k: nat)
    ensures Bit(Pow2(n), k) <==> k == n
    decreases n
  {
    if n == 0 {
      if k > 0 {
        ZeroHasNoBits(k - 1);
      }
    } else {
      assert Pow2(n) % 2 == 0 && Pow2(n) / 2 == Pow2(n - 1);
      if k > 0 {
        PowerBit(n - 1, k - 1);
      }
    }
  }

  /** `Administer` is the single bit of weight 2^7. */
  lemma AdministerBits(k: nat)
    ensures Bit(Administer, k) <==> k == 7
  {
    assert Administer == Pow2(7);
    PowerBit(7, k);
  }

  /** Every bit `p` asks for is set in `mask`. */
  ghost predicate HoldsEveryBit(mask: nat, p: nat) {
    forall k: nat :: Bit(p, k) ==> Bit(mask, k)
  }

  /** `mask` holds every bit `p` asks for: the bitwise test
      `mask & p == p`. */
  predicate Grants(mask: nat, p: nat) {
    BitAnd(mask, p) == p
  }

  /** The bitwise test means, bit by bit, that every requested bit is held. */
  lemma GrantsMeansEveryBit(mask: nat, p: nat)
    ensures Grants(mask, p) <==> HoldsEveryBit(mask, p)
  {
    forall k: nat
      ensures Bit(BitAnd(mask, p), k) == (Bit(mask, k) && Bit(p, k))
    {
      BitOfAnd(mask, p, k);
    }
    if HoldsEveryBit(mask, p) {
      BitsDetermine(BitAnd(mask, p), p);
    }
  }

  /** Python's `a and b` on integers: `a` when it is falsy (zero), else `b`. */
  function PyAnd(a: int, b: int): int {
    if a == 0 then a else b
  }

  /** The test `can` actually performs: `(mask and p) == p`. */
  predicate GrantsAsWritten(mask: int, p: int) {
    PyAnd(mask, p) == p
  }

  /** The test as written passes for every request as soon as the mask is
      non-zero, and for the empty request only when it is zero. */
  lemma AsWrittenMeaning(mask: int, p: int)
    ensures GrantsAsWritten(mask, p) <==> (mask != 0 || p == 0)
  {
  }

  /** The test as written agrees with the bitwise test exactly when the mask
      is zero or the bitwise test passes; every disagreement is a request the
      written test lets through. */
  lemma AsWrittenVersusBitwise(mask: nat, p: nat)
    ensures (GrantsAsWritten(mask, p) == Grants(mask, p)) <==> (mask == 0 || Grants(mask, p))
    ensures Grants(mask, p) ==> GrantsAsWritten(mask, p)
  {
  }

  /** The seeded User mask is granted `Administer` by the test as written,
      although it does not hold the bit. */
  lemma UserMaskPassesAdministerAsWritten()
    ensures GrantsAsWritten(UserMask, Administer)
    ensures !Grants(UserMask, Administer)
  {
    SeedMaskValues();
    assert BitAnd(7, 0x80) == 0;
  }

  /** Under the bitwise test the seeded masks grant what their names say:
      only the Administrator mask holds `Administer`, and only Moderator and
      Administrator hold `ModerateComments`. */
  lemma SeedMasksBitwise()
    ensures Grants(UserMask, Follow) && Grants(UserMask, Comment) && Grants(UserMask, WriteArticles)
    ensures !Grants(UserMask, ModerateComments) && !Grants(UserMask, Administer)
    ensures Grants(ModeratorMask, ModerateComments) && !Grants(ModeratorMask, Administer)
    ensures Grants(AdministratorMask, Administer) && Grants(AdministratorMask, ModeratorMask)
  {
    SeedMaskValues();
    assert BitAnd(7, 1) == 1 && BitAnd(7, 2) == 2 && BitAnd(7, 4) == 4;
    assert BitAnd(7, 8) == 0 && BitAnd(7, 0x80) == 0;
    assert BitAnd(15, 8) == 8 && BitAnd(15, 0x80) == 0;
    assert BitAnd(0xff, 0x80) == 0x80 && BitAnd(0xff, 15) == 15;
  }
}
