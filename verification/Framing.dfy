/** The byte framing that is fed to the keyed MAC, and its inverse. */
module Framing {
  import opened Common
  import opened Arithmetic

  /** `rp-auth-tag-v1\0` in ASCII. */
  const DOMAIN: Bytes := [0x72, 0x70, 0x2d, 0x61, 0x75, 0x74, 0x68, 0x2d, 0x74, 0x61, 0x67, 0x2d, 0x76, 0x31, 0x00]

  function Power256(k: nat): nat {
    if k == 0 then 1 else 256 * Power256(k - 1)
  }

  function LittleEndian(n: nat, width: nat): (r: Bytes)
    ensures |r| == width
    decreases width
  {
    if width == 0 then [] else [(n % 256) as byte] + LittleEndian(n / 256, width - 1)
  }

  function FromLittleEndian(b: Bytes): nat {
    if b == [] then 0 else b[0] as nat + 256 * FromLittleEndian(b[1..])
  }

  lemma {:induction false} LittleEndianRoundTrip(n: nat, width: nat)
    requires n < Power256(width)
    ensures FromLittleEndian(LittleEndian(n, width)) == n
    decreases width
  {
    if width != 0 {
      LittleEndianRoundTrip(n / 256, width - 1);
      var r := LittleEndian(n, width);
      assert r[1..] == LittleEndian(n / 256, width - 1);
    }
  }

  /** The bytes are the digits to base 256, the lowest first. */
  lemma {:induction false} LittleEndianDigit(n: nat, width: nat, k: nat)
    requires k < width
    ensures Power256(k) > 0 && LittleEndian(n, width)[k] as nat == n / Power256(k) % 256
  {
    if k > 0 {
      LittleEndianDigit(n / 256, width - 1, k - 1);
      DivTwice(n, Power256(k - 1));
    }
  }

  lemma DivTwice(n: nat, p: nat)
    requires p > 0
    ensures n / 256 / p == n / (256 * p)
  {
    var q, a := n / 256 / p, n / 256;
    assert n == 256 * a + n % 256;
    assert a == p * q + a % p;
    var rest := 256 * (a % p) + n % 256;
    assert 256 * (p * q) == q * (256 * p);
    assert n == q * (256 * p) + rest;
    assert rest < 256 * p;
    DivIs(n, 256 * p, q);
  }

  lemma Power256Of8()
    ensures Power256(8) == U64_BOUND
  {
    assert Power256(4) == 0x1_0000_0000;
    assert Power256(6) == 0x1_0000_0000 * 0x1_0000;
  }

  /** The LE64 length of one field; a longer one saturates. */
  function LenPrefix(field: Bytes): (r: Bytes)
    ensures |r| == 8
  {
    LittleEndian(if |field| < U64_BOUND then |field| else U64_BOUND - 1, 8)
  }

  /** Every field in turn, each behind its length. */
  function FrameFields(fields: seq<Bytes>): Bytes {
    if fields == [] then [] else LenPrefix(fields[0]) + fields[0] + FrameFields(fields[1..])
  }

  /** What the MAC of one presented credential is computed over. */
  function TagInput(username: Bytes, password: Bytes, phc: Bytes): Bytes {
    DOMAIN + FrameFields([username, password, phc])
  }

  /** Reads `count` length-prefixed fields back, or `None` when the bytes run out or are left over. */
  function UnframeFields(b: Bytes, count: nat): Option<seq<Bytes>>
    decreases count
  {
    if count == 0 then
      if b == [] then Some([]) else None
    else if |b| < 8 then None
    else
      var len := FromLittleEndian(b[..8]);
      if |b| < 8 + len then None
      else
        match UnframeFields(b[8 + len..], count - 1)
        case None => None
        case Some(rest) => Some([b[8..8 + len]] + rest)
  }

  ghost predicate Addressable(fields: seq<Bytes>) {
    forall i :: 0 <= i < |fields| ==> |fields[i]| < U64_BOUND
  }

  lemma {:induction false} UnframeUndoesFrame(fields: seq<Bytes>)
    requires Addressable(fields)
    ensures UnframeFields(FrameFields(fields), |fields|) == Some(fields)
  {
    if fields != [] {
      var b := FrameFields(fields);
      var tail := FrameFields(fields[1..]);
      Power256Of8();
      LittleEndianRoundTrip(|fields[0]|, 8);
      assert b[..8] == LenPrefix(fields[0]);
      assert b[8..8 + |fields[0]|] == fields[0];
      assert b[8 + |fields[0]|..] == tail;
      UnframeUndoesFrame(fields[1..]);
      assert [fields[0]] + fields[1..] == fields;
    }
  }

  /**
   * Equal MAC inputs mean equal credentials checked against equal stored hashes:
   * no byte can move from one field to a neighbour.
   */
  lemma TagInputInjective(u1: Bytes, p1: Bytes, h1: Bytes, u2: Bytes, p2: Bytes, h2: Bytes)
    requires Addressable([u1, p1, h1]) && Addressable([u2, p2, h2])
    requires TagInput(u1, p1, h1) == TagInput(u2, p2, h2)
    ensures u1 == u2 && p1 == p2 && h1 == h2
  {
    var a, b := [u1, p1, h1], [u2, p2, h2];
    assert TagInput(u1, p1, h1)[|DOMAIN|..] == FrameFields(a);
    assert TagInput(u2, p2, h2)[|DOMAIN|..] == FrameFields(b);
    UnframeUndoesFrame(a);
    UnframeUndoesFrame(b);
    assert a == b;
    assert a[0] == b[0] && a[1] == b[1] && a[2] == b[2];
  }

  lemma FirstField(field: Bytes, rest: seq<Bytes>)
    ensures FrameFields([field] + rest) == LenPrefix(field) + field + FrameFields(rest)
  {
    assert ([field] + rest)[1..] == rest;
  }

  /** The layout: the domain, then username, password and stored hash, each behind its length. */
  lemma TagInputLayout(username: Bytes, password: Bytes, phc: Bytes)
    ensures TagInput(username, password, phc) ==
              DOMAIN + (LenPrefix(username) + username + (LenPrefix(password) + password + (LenPrefix(phc) + phc + [])))
  {
    FirstField(phc, []);
    FirstField(password, [phc]);
    FirstField(username, [password, phc]);
    assert [phc] + [] == [phc] && [password] + [phc] == [password, phc];
    assert [username] + [password, phc] == [username, password, phc];
  }
}
