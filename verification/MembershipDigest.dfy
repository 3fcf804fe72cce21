/** The membership-set digest: sorted unique (occurrence, role) tuples, each framed by its
    eight-byte big-endian length, hashed as one byte stream. */
module MembershipDigest {
  import opened Ordering

  newtype Byte = x: int | 0 <= x < 256

  datatype Member = Member(occurrenceId: string, role: string)

  /** The canonical encoder of one tuple and the hash of the stream; both are foreign. */
  datatype Codec = Codec(encode: Member -> seq<Byte>, hash: seq<Byte> -> string)

  ghost predicate CollisionFree(c: Codec) {
    Injective(c.encode) && Injective(c.hash)
  }

  predicate MemberLe(a: Member, b: Member) {
    if a.occurrenceId == b.occurrenceId then StringLe(a.role, b.role) else StringLe(a.occurrenceId, b.occurrenceId)
  }

  lemma MemberTotalOrder()
    ensures TotalOrder(MemberLe)
  {
    StringTotalOrder();
  }

  // ------------------------------------------------------------------- frames

  const LENGTH_BYTES := 8

  function Pow256(n: nat): nat { if n == 0 then 1 else 256 * Pow256(n - 1) }

  /** Python's n.to_bytes(width, "big"), which raises unless n < 256**width. */
  function BigEndian(n: nat, width: nat): (r: seq<Byte>)
    ensures |r| == width
  {
    if width == 0 then [] else BigEndian(n / 256, width - 1) + [(n % 256) as Byte]
  }

  lemma {:induction false} BigEndianInjective(m: nat, n: nat, width: nat)
    requires m < Pow256(width) && n < Pow256(width)
    requires BigEndian(m, width) == BigEndian(n, width)
    ensures m == n
  {
    if width > 0 {
      var a, b := BigEndian(m, width), BigEndian(n, width);
      assert a[..width-1] == BigEndian(m / 256, width - 1);
      assert b[..width-1] == BigEndian(n / 256, width - 1);
      assert a[width-1] == b[width-1];
      BigEndianInjective(m / 256, n / 256, width - 1);
    }
  }

  predicate Fits(payload: seq<Byte>) { |payload| < Pow256(LENGTH_BYTES) }

  function Frame(payload: seq<Byte>): seq<Byte> { BigEndian(|payload|, LENGTH_BYTES) + payload }

  function Frames(payloads: seq<seq<Byte>>): seq<Byte> {
    if payloads == [] then [] else Frame(payloads[0]) + Frames(payloads[1..])
  }

  lemma {:induction false} FramesAppend(a: seq<seq<Byte>>, p: seq<Byte>)
    ensures Frames(a + [p]) == Frames(a) + Frame(p)
  {
    if a == [] {
      assert a + [p] == [p];
    } else {
      FramesAppend(a[1..], p);
      assert (a + [p])[1..] == a[1..] + [p];
    }
  }

  /** The first frame of a stream can be split off in one way only. */
  lemma FrameSplit(p: seq<Byte>, s: seq<Byte>, q: seq<Byte>, t: seq<Byte>)
    requires Fits(p) && Fits(q) && Frame(p) + s == Frame(q) + t
    ensures p == q && s == t
  {
    var left, right := Frame(p) + s, Frame(q) + t;
    assert left[..LENGTH_BYTES] == BigEndian(|p|, LENGTH_BYTES);
    assert right[..LENGTH_BYTES] == BigEndian(|q|, LENGTH_BYTES);
    BigEndianInjective(|p|, |q|, LENGTH_BYTES);
    var cut := LENGTH_BYTES + |p|;
    assert left[LENGTH_BYTES..cut] == p && right[LENGTH_BYTES..cut] == q;
    assert left[cut..] == s && right[cut..] == t;
  }

  /** Length-prefixed framing is uniquely decodable. */
  lemma {:induction false} FramesInjective(a: seq<seq<Byte>>, b: seq<seq<Byte>>)
    requires (forall p <- a :: Fits(p)) && (forall p <- b :: Fits(p))
    requires Frames(a) == Frames(b)
    ensures a == b
  {
    if a == [] || b == [] {
      assert a == b;
    } else {
      FrameSplit(a[0], Frames(a[1..]), b[0], Frames(b[1..]));
      FramesInjective(a[1..], b[1..]);
      assert a == [a[0]] + a[1..] && b == [b[0]] + b[1..];
    }
  }

  // ------------------------------------------------------------------- digest

  datatype DigestResult =
    | Digest(sha256: string)
    | NotUnique     // "derivation membership tuples are not unique"
    | Overflow      // an encoded tuple of 2**64 bytes or more

  function Encoded(c: Codec, members: seq<Member>): seq<seq<Byte>> {
    seq(|members|, i requires 0 <= i < |members| => c.encode(members[i]))
  }

  ghost predicate AllFit(c: Codec, members: seq<Member>) {
    forall m <- members :: Fits(c.encode(m))
  }

  /** What the digest of a duplicate-free member list is. */
  function SetDigest(c: Codec, members: seq<Member>): string {
    c.hash(Frames(Encoded(c, Sort(MemberLe, members))))
  }

  lemma SetDigestPermutation(c: Codec, a: seq<Member>, b: seq<Member>)
    requires multiset(a) == multiset(b)
    ensures SetDigest(c, a) == SetDigest(c, b)
  {
    MemberTotalOrder();
    SortPermutation(MemberLe, a, b);
  }

  function MemberSet(s: seq<Member>): set<Member> { set m | m in s }

  lemma EqualDigestsEqualMembers(c: Codec, a: seq<Member>, b: seq<Member>)
    requires CollisionFree(c) && AllFit(c, a) && AllFit(c, b) && SetDigest(c, a) == SetDigest(c, b)
    ensures MemberSet(a) == MemberSet(b)
  {
    var sa, sb := Sort(MemberLe, a), Sort(MemberLe, b);
    SortMembers(MemberLe, a);
    SortMembers(MemberLe, b);
    var ea, eb := Encoded(c, sa), Encoded(c, sb);
    assert forall p <- ea :: Fits(p);
    assert forall p <- eb :: Fits(p);
    FramesInjective(ea, eb);
    forall i | 0 <= i < |sa| ensures sa[i] == sb[i] {
      assert ea[i] == eb[i];
    }
    assert sa == sb;
    forall m ensures m in a <==> m in b {
      assert m in a <==> m in sa;
      assert m in b <==> m in sb;
    }
  }

  lemma EqualMembersEqualDigests(c: Codec, a: seq<Member>, b: seq<Member>)
    requires Distinct(a) && Distinct(b) && MemberSet(a) == MemberSet(b)
    ensures SetDigest(c, a) == SetDigest(c, b)
  {
    forall m ensures m in a <==> m in b {
      assert m in a <==> m in MemberSet(a);
      assert m in b <==> m in MemberSet(b);
    }
    DistinctSameMembers(a, b);
    SetDigestPermutation(c, a, b);
  }

  /** Equal digests mean equal membership sets, and the order of the members is immaterial. */
  lemma DigestIsCanonical(c: Codec, a: seq<Member>, b: seq<Member>)
    requires CollisionFree(c) && Distinct(a) && Distinct(b) && AllFit(c, a) && AllFit(c, b)
    ensures SetDigest(c, a) == SetDigest(c, b) <==> MemberSet(a) == MemberSet(b)
  {
    if SetDigest(c, a) == SetDigest(c, b) { EqualDigestsEqualMembers(c, a, b); }
    if MemberSet(a) == MemberSet(b) { EqualMembersEqualDigests(c, a, b); }
  }

  lemma NotAbovePrior(members: seq<Member>, sorted: seq<Member>, i: nat)
    requires sorted == Sort(MemberLe, members) && 0 < i < |sorted| && MemberLe(sorted[i], sorted[i - 1])
    ensures !Distinct(members)
  {
    SortedMembers(members);
    MemberTotalOrder();
    assert sorted[i] == sorted[i - 1];
  }

  lemma TooLong(c: Codec, members: seq<Member>, sorted: seq<Member>, i: nat)
    requires sorted == Sort(MemberLe, members) && i < |sorted| && !Fits(c.encode(sorted[i]))
    ensures !AllFit(c, members)
  {
    SortedMembers(members);
    assert sorted[i] in members;
  }

  lemma AllAccepted(c: Codec, members: seq<Member>, sorted: seq<Member>)
    requires sorted == Sort(MemberLe, members) && Accepted(c, sorted, |sorted|)
    ensures Distinct(members) && AllFit(c, members)
  {
    SortedMembers(members);
    assert sorted[..|sorted|] == sorted;
  }

  lemma AbovePriorIsNew(sorted: seq<Member>, i: nat)
    requires SortedBy(MemberLe, sorted) && 0 < i < |sorted| && !MemberLe(sorted[i], sorted[i - 1])
    ensures sorted[i] !in sorted[..i]
  {
    forall k | 0 <= k < i ensures sorted[k] != sorted[i] {
      assert k == i - 1 || MemberLe(sorted[k], sorted[i - 1]);
    }
  }

  lemma StreamStep(c: Codec, sorted: seq<Member>, i: nat)
    requires i < |sorted|
    ensures Frames(Encoded(c, sorted[..i+1])) == Frames(Encoded(c, sorted[..i])) + Frame(c.encode(sorted[i]))
  {
    FramesAppend(Encoded(c, sorted[..i]), c.encode(sorted[i]));
    assert Encoded(c, sorted[..i+1]) == Encoded(c, sorted[..i]) + [c.encode(sorted[i])];
  }

  /** The tuples accepted so far. */
  ghost predicate Accepted(c: Codec, sorted: seq<Member>, i: nat)
    requires i <= |sorted|
  {
    Distinct(sorted[..i]) && AllFit(c, sorted[..i])
  }

  lemma AcceptedStep(c: Codec, sorted: seq<Member>, i: nat)
    requires SortedBy(MemberLe, sorted) && i < |sorted| && Accepted(c, sorted, i)
    requires i > 0 ==> !MemberLe(sorted[i], sorted[i - 1])
    requires Fits(c.encode(sorted[i]))
    ensures Accepted(c, sorted, i + 1)
  {
    if i > 0 { AbovePriorIsNew(sorted, i); }
    assert sorted[..i+1] == sorted[..i] + [sorted[i]];
  }

  lemma SortedMembers(members: seq<Member>)
    ensures SortedBy(MemberLe, Sort(MemberLe, members))
    ensures Distinct(Sort(MemberLe, members)) <==> Distinct(members)
    ensures forall m :: m in Sort(MemberLe, members) <==> m in members
  {
    MemberTotalOrder();
    SortSorted(MemberLe, members);
    SortMembers(MemberLe, members);
    DistinctSort(MemberLe, members);
  }

  /** One pass over the sorted tuples, refusing a tuple not above its predecessor. */
  method MembershipSetDigest(c: Codec, members: seq<Member>) returns (r: DigestResult)
    ensures r.Digest? ==> Distinct(members) && AllFit(c, members) && r.sha256 == SetDigest(c, members)
    ensures r.NotUnique? ==> !Distinct(members)
    ensures r.Overflow? ==> !AllFit(c, members)
  {
    var sorted := Sort(MemberLe, members);
    SortedMembers(members);
    var stream: seq<Byte> := [];
    var i := 0;
    while i < |sorted|
      invariant 0 <= i <= |sorted| && Accepted(c, sorted, i)
      invariant stream == Frames(Encoded(c, sorted[..i]))
    {
      if i > 0 && MemberLe(sorted[i], sorted[i - 1]) {
        NotAbovePrior(members, sorted, i);
        return NotUnique;
      }
      var payload := c.encode(sorted[i]);
      if !Fits(payload) {
        TooLong(c, members, sorted, i);
        return Overflow;
      }
      AcceptedStep(c, sorted, i);
      StreamStep(c, sorted, i);
      stream := stream + Frame(payload);
      i := i + 1;
    }
    AllAccepted(c, members, sorted);
    assert sorted[..i] == sorted;
    return Digest(c.hash(stream));
  }
}
