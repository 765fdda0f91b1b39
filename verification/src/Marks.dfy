/** Identities and cluster ids packed into the 32-bit packet mark, for every width of the cluster id.

    A 32-bit word is the sequence of its bits, lowest first, and the bitwise operators work bit by bit. */
module Marks {

  type Word = w: seq<bool> | |w| == 32 witness seq(32, _ => false)

  function And(a: Word, b: Word): Word { seq(32, i requires 0 <= i < 32 => a[i] && b[i]) }
  function Or(a: Word, b: Word): Word { seq(32, i requires 0 <= i < 32 => a[i] || b[i]) }
  function Shl(a: Word, n: nat): Word { seq(32, i requires 0 <= i < 32 => i >= n && a[i - n]) }
  function Shr(a: Word, n: nat): Word { seq(32, i requires 0 <= i < 32 => i + n < 32 && a[i + n]) }

  /** The mask with bits lo to hi - 1 set: (1 << hi) - (1 << lo). */
  function Mask(lo: nat, hi: nat): Word { seq(32, i requires 0 <= i < 32 => lo <= i < hi) }

  const ZERO: Word := Mask(0, 0)
  const MARK_MAGIC_HOST_MASK: Word := Mask(8, 12)      // 0x0F00
  const MARK_MAGIC_KEY_MASK: Word := Mask(8, 16)       // 0xFF00
  const MARK_MAGIC_CLUSTER_ID: Word := Mask(9, 10)     // 0x0200
  const CLUSTER_ID_LOWER_MASK: Word := Mask(0, 8)      // 0x00FF

  /** cluster_id_bits */
  type Width = k: nat | 8 <= k <= 16 witness 8

  function LocalBits(k: Width): nat { 24 - k }

  function ClusterIdMax(k: Width): Word { Mask(0, k) }

  function LocalMax(k: Width): Word { Mask(0, LocalBits(k)) }

  /** get_cluster_id_upper_mask */
  function UpperMask(k: Width): Word {
    Shl(And(ClusterIdMax(k), Mask(8, 32)), 8 + LocalBits(k))
  }

  /** format_cluster_id_mark */
  function FormatClusterId(k: Width, clusterId: Word): Word {
    Or(And(clusterId, Mask(0, 8)), Shl(And(clusterId, Mask(8, 32)), 8 + LocalBits(k)))
  }

  /** The cluster id a mark carries. */
  function ClusterPart(k: Width, mark: Word): Word {
    Or(And(mark, CLUSTER_ID_LOWER_MASK), Shr(And(mark, UpperMask(k)), 8 + LocalBits(k)))
  }

  /** ctx_get_cluster_id_mark */
  function GetClusterId(k: Width, mark: Word): Word {
    if And(mark, MARK_MAGIC_HOST_MASK) != MARK_MAGIC_CLUSTER_ID then ZERO
    else And(ClusterPart(k, mark), ClusterIdMax(k))
  }

  /** get_identity */
  function GetIdentity(k: Width, mark: Word): Word {
    Or(Shl(ClusterPart(k, mark), LocalBits(k)), And(Shr(mark, 16), LocalMax(k)))
  }

  /** The mark set_identity_mark computes. */
  function IdentityMark(k: Width, identity: Word, magic: Word): Word {
    Or(Or(FormatClusterId(k, And(Shr(identity, LocalBits(k)), ClusterIdMax(k))), And(magic, MARK_MAGIC_KEY_MASK)),
       Shl(And(identity, LocalMax(k)), 16))
  }

  /** The packet mark, written in place. */
  class Ctx {
    var mark: Word

    /** set_identity_mark */
    method SetIdentityMark(k: Width, identity: Word, magic: Word)
      modifies this
      ensures GetIdentity(k, mark) == And(identity, Mask(0, 24))
      ensures And(mark, MARK_MAGIC_KEY_MASK) == And(magic, MARK_MAGIC_KEY_MASK)
    {
      hide FormatClusterId, GetIdentity, And, Or, Shl, Shr;
      var clusterId := And(Shr(identity, LocalBits(k)), ClusterIdMax(k));
      mark := FormatClusterId(k, clusterId);
      mark := Or(mark, And(magic, MARK_MAGIC_KEY_MASK));
      mark := Or(mark, Shl(And(identity, LocalMax(k)), 16));
      IdentityRoundTrip(k, identity, magic);
    }

    /** ctx_set_cluster_id_mark */
    method SetClusterIdMark(k: Width, clusterId: Word)
      modifies this
      ensures GetClusterId(k, mark) == And(clusterId, ClusterIdMax(k))
    {
      hide FormatClusterId, GetClusterId, And, Or;
      mark := Or(FormatClusterId(k, clusterId), MARK_MAGIC_CLUSTER_ID);
      ClusterIdRoundTrip(k, clusterId);
    }
  }

  /** The value fits into `n` bits. */
  ghost predicate Fits(w: Word, n: nat) {
    forall i :: 0 <= i < 32 && w[i] ==> i < n
  }

  lemma FitsIff(w: Word, n: nat)
    ensures And(w, Mask(0, n)) == w <==> Fits(w, n)
  {
    var v := And(w, Mask(0, n));
    if Fits(w, n) { assert forall i :: 0 <= i < 32 ==> v[i] == w[i]; }
    assert v == w ==> forall i :: 0 <= i < 32 ==> v[i] == w[i];
  }

  /** Bit layout of an identity mark: the low cluster byte, the magic byte, the local identity from bit 16 on,
      and the upper cluster bits at the top. */
  lemma MarkBits(k: Width, identity: Word, magic: Word, i: nat)
    requires i < 32
    ensures IdentityMark(k, identity, magic)[i] ==
            if i < 8 then identity[i + 24 - k]
            else if i < 16 then magic[i]
            else if i < 40 - k then identity[i - 16]
            else identity[i - 8]
  {
  }

  lemma GetBits(k: Width, mark: Word, i: nat)
    requires i < 32
    ensures GetIdentity(k, mark)[i] ==
            if i < 24 - k then mark[i + 16]
            else if i < 32 - k then mark[i - (24 - k)]
            else if i < 24 then mark[i + 8]
            else false
  {
  }

  /** Reading back a stored identity gives its low 24 bits, so exactly the identities below 2^24 survive; the
      magic bits survive always. */
  lemma IdentityRoundTrip(k: Width, identity: Word, magic: Word)
    ensures var mark := IdentityMark(k, identity, magic);
            && GetIdentity(k, mark) == And(identity, Mask(0, 24))
            && (GetIdentity(k, mark) == identity <==> Fits(identity, 24))
            && And(mark, MARK_MAGIC_KEY_MASK) == And(magic, MARK_MAGIC_KEY_MASK)
  {
    hide IdentityMark, GetIdentity;
    var mark := IdentityMark(k, identity, magic);
    var back := GetIdentity(k, mark);
    var low := And(identity, Mask(0, 24));
    forall i | 0 <= i < 32
      ensures back[i] == low[i] && And(mark, MARK_MAGIC_KEY_MASK)[i] == And(magic, MARK_MAGIC_KEY_MASK)[i]
    {
      GetBits(k, mark, i);
      MarkBits(k, identity, magic, i);
      if i < 24 - k {
        MarkBits(k, identity, magic, i + 16);
      } else if i < 32 - k {
        MarkBits(k, identity, magic, i - (24 - k));
      } else if i < 24 {
        MarkBits(k, identity, magic, i + 8);
      }
    }
    assert back == low;
    FitsIff(identity, 24);
  }

  /** The same for cluster-id marks: exactly the cluster ids that fit the configured width survive. */
  lemma ClusterIdRoundTrip(k: Width, clusterId: Word)
    ensures var mark := Or(FormatClusterId(k, clusterId), MARK_MAGIC_CLUSTER_ID);
            && GetClusterId(k, mark) == And(clusterId, ClusterIdMax(k))
            && (GetClusterId(k, mark) == clusterId <==> Fits(clusterId, k))
  {
    var mark := Or(FormatClusterId(k, clusterId), MARK_MAGIC_CLUSTER_ID);
    forall i | 0 <= i < 32
      ensures And(mark, MARK_MAGIC_HOST_MASK)[i] == MARK_MAGIC_CLUSTER_ID[i]
      ensures And(ClusterPart(k, mark), ClusterIdMax(k))[i] == And(clusterId, ClusterIdMax(k))[i]
    {
      assert mark[i] == if i < 8 then clusterId[i] else if i < 40 - k then i == 9 else clusterId[i - (32 - k)];
    }
    assert And(mark, MARK_MAGIC_HOST_MASK) == MARK_MAGIC_CLUSTER_ID;
    assert And(ClusterPart(k, mark), ClusterIdMax(k)) == And(clusterId, ClusterIdMax(k));
    FitsIff(clusterId, k);
  }

  /** The three fields of a mark never overlap, whatever is stored in them. */
  lemma FieldsDisjoint(k: Width, clusterId: Word, identity: Word, magic: Word, i: nat)
    requires i < 32
    ensures var cluster := FormatClusterId(k, clusterId)[i];
            var local := Shl(And(identity, LocalMax(k)), 16)[i];
            var bits := And(magic, MARK_MAGIC_KEY_MASK)[i];
            !(cluster && local) && !(cluster && bits) && !(local && bits)
  {
  }
}
