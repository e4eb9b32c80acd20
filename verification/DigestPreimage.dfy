/** The length-prefixed bytes that every Adyen evidence digest is taken of. */
module DigestPreimage {
  import opened Wrappers
  import opened Machine
  import opened Sequences

  function Pow256(k: nat): (p: int)
    ensures p >= 1
  {
    if k == 0 then 1 else 256 * Pow256(k - 1)
  }

  /** The low `k` bytes of `n`, most significant first. */
  function BigEndian(n: nat, k: nat): (bs: Bytes)
    ensures |bs| == k
  {
    if k == 0 then [] else BigEndian(n / 256, k - 1) + [n % 256]
  }

  function Value(bs: Bytes): (n: nat)
    decreases |bs|
  {
    if bs == [] then 0 else Value(bs[..|bs| - 1]) * 256 + bs[|bs| - 1]
  }

  lemma {:induction false} BigEndianValue(n: nat, k: nat)
    requires n < Pow256(k)
    ensures Value(BigEndian(n, k)) == n
    decreases k
  {
    if k > 0 {
      BigEndianValue(n / 256, k - 1);
      assert BigEndian(n, k)[..k - 1] == BigEndian(n / 256, k - 1);
    }
  }

  /** `append_field`: an eight-byte length, cut to 64 bits, then the bytes. */
  function AppendField(bytes: Bytes, field: Bytes): (r: Bytes) {
    bytes + (BigEndian(|field|, 8) + field)
  }

  datatype Field = Field(name: Bytes, value: Bytes)

  /** The texts `from_parts` appends, in order. */
  function Texts(domain: Bytes, fields: seq<Field>): (r: seq<Bytes>)
    ensures |r| == 1 + 2 * |fields|
    ensures r[0] == domain && forall i :: 0 <= i < |fields| ==>
        r[1 + 2 * i] == fields[i].name && r[2 + 2 * i] == fields[i].value
    decreases |fields|
  {
    if fields == [] then [domain]
    else
      var n := |fields| - 1;
      Texts(domain, fields[..n]) + [fields[n].name, fields[n].value]
  }

  /** One text after another, each behind its length. */
  function Encode(texts: seq<Bytes>): Bytes
    decreases |texts|
  {
    if texts == [] then [] else AppendField(Encode(texts[..|texts| - 1]), texts[|texts| - 1])
  }

  /** The buffer `from_parts` fills. */
  method FromParts(domain: Bytes, fields: seq<Field>) returns (bytes: Bytes)
    ensures bytes == Encode(Texts(domain, fields))
  {
    bytes := AppendField([], domain);
    assert Encode([domain]) == bytes by { assert [domain][..0] == []; }
    for i := 0 to |fields|
      invariant bytes == Encode(Texts(domain, fields[..i]))
    {
      bytes := AppendField(bytes, fields[i].name);
      bytes := AppendField(bytes, fields[i].value);
      EncodeTwo(domain, fields, i);
    }
    assert fields[..|fields|] == fields;
  }

  lemma EncodeTwo(domain: Bytes, fields: seq<Field>, i: nat)
    requires i < |fields|
    ensures Encode(Texts(domain, fields[..i + 1])) ==
        AppendField(AppendField(Encode(Texts(domain, fields[..i])), fields[i].name), fields[i].value)
  {
    assert fields[..i + 1][..i] == fields[..i];
    var before, after := Texts(domain, fields[..i]), Texts(domain, fields[..i + 1]);
    var n := |before|;
    assert after == before + [fields[i].name, fields[i].value];
    assert after[..n + 1] == before + [fields[i].name];
    assert after[..n + 1][..n] == before;
  }

  /** Read length-prefixed texts until the bytes end; anything left over is an error. */
  function Decode(bytes: Bytes): Option<seq<Bytes>>
    decreases |bytes|
  {
    if bytes == [] then Some([])
    else if |bytes| < 8 || |bytes| < 8 + Value(bytes[..8]) then None
    else
      var end := 8 + Value(bytes[..8]);
      match Decode(bytes[end..])
      case None => None
      case Some(rest) => Some([bytes[8..end]] + rest)
  }

  /** Lengths that fit in 64 bits. */
  predicate Bounded(texts: seq<Bytes>) {
    forall i :: 0 <= i < |texts| ==> |texts[i]| < Pow256(8)
  }

  lemma {:induction false} EncodeFirst(texts: seq<Bytes>)
    requires texts != []
    ensures Encode(texts) == BigEndian(|texts[0]|, 8) + texts[0] + Encode(texts[1..])
    decreases |texts|
  {
    var n := |texts| - 1;
    var first := BigEndian(|texts[0]|, 8) + texts[0];
    if n == 0 {
      assert texts[..0] == [] && texts[1..] == [];
      assert [] + first == first && first + [] == first;
    } else {
      EncodeFirst(texts[..n]);
      assert texts[..n][1..] == texts[1..][..n - 1] && texts[1..][n - 1] == texts[n];
      Associative(first, Encode(texts[1..][..n - 1]), BigEndian(|texts[n]|, 8) + texts[n]);
    }
  }

  /** The decoder recovers every text. */
  lemma {:induction false} DecodeEncode(texts: seq<Bytes>)
    requires Bounded(texts)
    ensures Decode(Encode(texts)) == Some(texts)
    decreases |texts|
  {
    if texts != [] {
      EncodeFirst(texts);
      DecodeEncode(texts[1..]);
      DecodeFirst(texts[0], Encode(texts[1..]));
      assert texts == [texts[0]] + texts[1..];
    }
  }

  lemma DecodeFirst(text: Bytes, bytes: Bytes)
    requires |text| < Pow256(8) && Decode(bytes).Some?
    ensures Decode(BigEndian(|text|, 8) + text + bytes) == Some([text] + Decode(bytes).value)
  {
    BigEndianValue(|text|, 8);
    var all, end := BigEndian(|text|, 8) + text + bytes, 8 + |text|;
    assert all[..8] == BigEndian(|text|, 8);
    assert all[8..end] == text && all[end..] == bytes;
  }

  /** Different domains or fields never share a preimage. */
  lemma PreimageIsInjective(domain: Bytes, fields: seq<Field>, domain': Bytes, fields': seq<Field>)
    requires Bounded(Texts(domain, fields)) && Bounded(Texts(domain', fields'))
    requires Encode(Texts(domain, fields)) == Encode(Texts(domain', fields'))
    ensures domain == domain' && fields == fields'
  {
    var a, b := Texts(domain, fields), Texts(domain', fields');
    DecodeEncode(a);
    DecodeEncode(b);
    assert |a| == 1 + 2 * |fields| && |b| == 1 + 2 * |fields'|;
    forall i | 0 <= i < |fields| ensures fields[i] == fields'[i]
    {
      assert a[1 + 2 * i] == b[1 + 2 * i] && a[2 + 2 * i] == b[2 + 2 * i];
    }
  }
}
