/** The six-bit permission mask (`crates/core/src/permissions.rs`). */
module Permissions {
  import opened Bits

  datatype Permission = Read | Generate | Modify | Execute | Commit | Audit {
    function Index(): (k: nat)
      ensures k < 6
    {
      match this
      case Read => 0
      case Generate => 1
      case Modify => 2
      case Execute => 3
      case Commit => 4
      case Audit => 5
    }

    /** The raw bit value: 1, 2, 4, 8, 16 or 32, not an index. */
    function Bit(): nat { Shl1(Index()) }
  }

  const SIX_BITS: nat := 63

  datatype PermissionDenied = PermissionDenied(required: Permission, mask: nat)

  datatype Outcome = Granted | Denied(error: PermissionDenied)

  datatype PermissionSet = PermissionSet(mask: nat) {
    static function Empty(): PermissionSet { PermissionSet(0) }

    static function All(): PermissionSet {
      Empty().Grant(Read).Grant(Generate).Grant(Modify).Grant(Execute).Grant(Commit).Grant(Audit)
    }

    static function FromMask(mask: nat): PermissionSet { PermissionSet(And(mask, SIX_BITS)) }

    function Grant(p: Permission): PermissionSet { PermissionSet(Or(mask, p.Bit())) }

    function Revoke(p: Permission): PermissionSet { PermissionSet(AndNot(mask, p.Bit())) }

    predicate Has(p: Permission) { And(mask, p.Bit()) != 0 }

    predicate Contains(other: PermissionSet) { And(mask, other.mask) == other.mask }
  }

  function Require(perms: PermissionSet, required: Permission): Outcome {
    if perms.Has(required) then Granted else Denied(PermissionDenied(required, perms.mask))
  }

  /** A grant adds exactly one right and a revocation removes exactly one. */
  lemma GrantRevokeExact(s: PermissionSet, p: Permission, q: Permission)
    ensures s.Grant(p).Has(q) <==> q == p || s.Has(q)
    ensures s.Revoke(p).Has(q) <==> q != p && s.Has(q)
  {
    BitwiseMeaning(s.mask, p.Bit(), q.Index());
    PowerHasOneBit(p.Index(), q.Index());
    MaskTest(s.mask, q.Index());
    MaskTest(s.Grant(p).mask, q.Index());
    MaskTest(s.Revoke(p).mask, q.Index());
    assert p.Index() == q.Index() <==> p == q;
  }

  /** The full set holds every right, and clamping a mask to six bits changes no right. */
  lemma AllAndClamp(p: Permission, mask: nat)
    ensures PermissionSet.All().Has(p)
    ensures PermissionSet.FromMask(mask).Has(p) <==> PermissionSet(mask).Has(p)
  {
    var s0 := PermissionSet.Empty();
    var s1, s2, s3 := s0.Grant(Read), s0.Grant(Read).Grant(Generate), s0.Grant(Read).Grant(Generate).Grant(Modify);
    var s4, s5 := s3.Grant(Execute), s3.Grant(Execute).Grant(Commit);
    GrantRevokeExact(s0, Read, p);
    GrantRevokeExact(s1, Generate, p);
    GrantRevokeExact(s2, Modify, p);
    GrantRevokeExact(s3, Execute, p);
    GrantRevokeExact(s4, Commit, p);
    GrantRevokeExact(s5, Audit, p);
    MaskTest(mask, p.Index());
    MaskTest(And(mask, SIX_BITS), p.Index());
    BitwiseMeaning(mask, SIX_BITS, p.Index());
    SixLowBits(p.Index());
  }

  lemma SixLowBits(k: nat)
    ensures TestBit(SIX_BITS, k) <==> k < 6
  {
    assert 63 / 2 == 31 && 31 / 2 == 15 && 15 / 2 == 7 && 7 / 2 == 3 && 3 / 2 == 1 && 1 / 2 == 0;
    if k >= 6 {
      ZeroHasNoBits(k - 6);
      assert TestBit(63, k) == TestBit(31, k - 1) == TestBit(15, k - 2) == TestBit(7, k - 3);
      assert TestBit(7, k - 3) == TestBit(3, k - 4) == TestBit(1, k - 5) == TestBit(0, k - 6);
    } else if k == 5 {
      assert TestBit(63, k) == TestBit(31, 4) == TestBit(15, 3) == TestBit(7, 2);
    } else if k == 4 {
      assert TestBit(63, k) == TestBit(31, 3) == TestBit(15, 2);
    }
  }

  /** Mask containment implies containment of rights; for a mask inside the six-bit domain it is the same. */
  lemma ContainsIsSubset(s: PermissionSet, other: PermissionSet)
    ensures s.Contains(other) ==> forall p: Permission :: other.Has(p) ==> s.Has(p)
    ensures other == PermissionSet.FromMask(other.mask) ==>
              (s.Contains(other) <==> forall p: Permission :: other.Has(p) ==> s.Has(p))
  {
    forall p: Permission | s.Contains(other) && other.Has(p) ensures s.Has(p) {
      MaskTest(s.mask, p.Index());
      MaskTest(other.mask, p.Index());
      BitwiseMeaning(s.mask, other.mask, p.Index());
    }
    if other == PermissionSet.FromMask(other.mask) && forall p: Permission :: other.Has(p) ==> s.Has(p) {
      forall k: nat ensures TestBit(And(s.mask, other.mask), k) <==> TestBit(other.mask, k) {
        BitwiseMeaning(s.mask, other.mask, k);
        BitwiseMeaning(other.mask, SIX_BITS, k);
        SixLowBits(k);
        if k < 6 {
          var p := [Read, Generate, Modify, Execute, Commit, Audit][k];
          assert p.Index() == k && (other.Has(p) ==> s.Has(p));
          MaskTest(s.mask, k);
          MaskTest(other.mask, k);
        }
      }
      BitsDetermine(And(s.mask, other.mask), other.mask);
    }
  }
}
