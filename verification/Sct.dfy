/** Signed Certificate Timestamps on the wire, as in sections 3.2 and 3.3 of RFC 6962. */
module Sct {
  import opened Prelude

  type Byte = b: nat | b < 256

  // ----- Big-endian numbers ------------------------------------------------------------------

  /** The low `k` bytes of `n`, most significant first. */
  function BigEndian(n: nat, k: nat): (s: seq<Byte>)
    ensures |s| == k
  {
    if k == 0 then [] else BigEndian(n / 256, k - 1) + [n % 256]
  }

  function Number(s: seq<Byte>): nat {
    if s == [] then 0 else Number(s[..|s| - 1]) * 256 + s[|s| - 1]
  }

  function Pow256(k: nat): nat {
    if k == 0 then 1 else 256 * Pow256(k - 1)
  }

  lemma {:induction false} NumberOfBytes(n: nat, k: nat)
    requires n < Pow256(k)
    ensures Number(BigEndian(n, k)) == n
  {
    if k > 0 {
      NumberOfBytes(n / 256, k - 1);
      assert BigEndian(n, k)[..k - 1] == BigEndian(n / 256, k - 1);
    }
  }

  lemma {:induction false} BytesOfNumber(s: seq<Byte>)
    ensures BigEndian(Number(s), |s|) == s && Number(s) < Pow256(|s|)
  {
    if s != [] {
      BytesOfNumber(s[..|s| - 1]);
      assert s == s[..|s| - 1] + [s[|s| - 1]];
    }
  }

  lemma Powers()
    ensures Pow256(2) == 0x1_0000 && Pow256(3) == 0x100_0000 && Pow256(8) == 0x1_0000_0000_0000_0000
  {
    assert Pow256(4) == 0x1_0000_0000;
    assert Pow256(6) == 0x1_0000_0000_0000;
  }

  function U16(hi: Byte, lo: Byte): nat {
    hi * 256 + lo
  }

  lemma U16IsNumber(s: seq<Byte>)
    requires |s| == 2
    ensures Number(s) == U16(s[0], s[1])
  {
    assert Number(s[..1]) == Number(s[..1][..0]) * 256 + s[0];
  }

  // ----- One timestamp --------------------------------------------------------------------------

  datatype Sct = Sct(logId: seq<Byte>, timestamp: nat, extensions: seq<Byte>, signature: seq<Byte>)

  /** The field sizes RFC 6962 gives. */
  predicate WellSized(s: Sct) {
    && |s.logId| == 32 && s.timestamp < 0x1_0000_0000_0000_0000
    && |s.extensions| < 0x1_0000 && |s.signature| < 0x1_0000
  }

  /** Version 1, log id, timestamp, extensions, then a SHA-256 with ECDSA signature. */
  function EncodeSct(s: Sct): seq<Byte> {
    [0] + s.logId + BigEndian(s.timestamp, 8) + BigEndian(|s.extensions|, 2) + s.extensions
    + [4, 3] + BigEndian(|s.signature|, 2) + s.signature
  }

  function ParseSct(b: seq<Byte>): Option<Sct> {
    if |b| < 43 || b[0] != 0 then None
    else
      var extEnd := 43 + U16(b[41], b[42]);
      if |b| < extEnd + 4 || b[extEnd] != 4 || b[extEnd + 1] != 3 then None
      else
        var sigStart := extEnd + 4;
        if |b| != sigStart + U16(b[extEnd + 2], b[extEnd + 3]) then None
        else Some(Sct(b[1..33], Number(b[33..41]), b[43..extEnd], b[sigStart..]))
  }

  lemma EncodedFields(s: Sct)
    requires WellSized(s)
    ensures var b := EncodeSct(s); var extEnd := 43 + |s.extensions|;
      && |b| == extEnd + 4 + |s.signature| && b[0] == 0
      && b[1..33] == s.logId && b[33..41] == BigEndian(s.timestamp, 8)
      && [b[41], b[42]] == BigEndian(|s.extensions|, 2) && b[43..extEnd] == s.extensions
      && b[extEnd] == 4 && b[extEnd + 1] == 3
      && [b[extEnd + 2], b[extEnd + 3]] == BigEndian(|s.signature|, 2) && b[extEnd + 4..] == s.signature
  {
  }

  lemma ParseInvertsEncode(s: Sct)
    requires WellSized(s)
    ensures ParseSct(EncodeSct(s)) == Some(s)
  {
    EncodedFields(s);
    Powers();
    NumberOfBytes(s.timestamp, 8);
    NumberOfBytes(|s.extensions|, 2);
    U16IsNumber(BigEndian(|s.extensions|, 2));
    NumberOfBytes(|s.signature|, 2);
    U16IsNumber(BigEndian(|s.signature|, 2));
  }

  lemma EncodeInvertsParse(b: seq<Byte>)
    requires ParseSct(b).Some?
    ensures WellSized(ParseSct(b).value) && EncodeSct(ParseSct(b).value) == b
  {
    var s := ParseSct(b).value;
    Powers();
    BytesOfNumber(b[33..41]);
    BytesOfNumber(b[41..43]);
    U16IsNumber(b[41..43]);
    var extEnd := 43 + |s.extensions|;
    BytesOfNumber(b[extEnd + 2..extEnd + 4]);
    U16IsNumber(b[extEnd + 2..extEnd + 4]);
    assert b == b[..1] + b[1..33] + b[33..41] + b[41..43] + b[43..extEnd] + b[extEnd..extEnd + 2]
           + b[extEnd + 2..extEnd + 4] + b[extEnd + 4..];
    assert b[..1] == [0] && b[extEnd..extEnd + 2] == [4, 3];
  }

  /** The encoded bytes, one by one: version 1, the log, the time, the extensions, SHA-256
      with ECDSA, and the signature. */
  lemma EncodedBytes(s: Sct)
    requires WellSized(s)
    ensures var b := EncodeSct(s); var x := |s.extensions|;
      && |b| == 47 + x + |s.signature| && b[0] == 0 && b[1..33] == s.logId && Number(b[33..41]) == s.timestamp
      && U16(b[41], b[42]) == x && b[43..43 + x] == s.extensions && b[43 + x] == 4 && b[44 + x] == 3
      && U16(b[45 + x], b[46 + x]) == |s.signature| && b[47 + x..] == s.signature
  {
    EncodedFields(s);
    Powers();
    NumberOfBytes(s.timestamp, 8);
    NumberOfBytes(|s.extensions|, 2);
    U16IsNumber(BigEndian(|s.extensions|, 2));
    NumberOfBytes(|s.signature|, 2);
    U16IsNumber(BigEndian(|s.signature|, 2));
  }

  // ----- A list of timestamps -----------------------------------------------------------------------

  function EncodeItems(scts: seq<Sct>): seq<Byte> {
    if scts == [] then []
    else BigEndian(|EncodeSct(scts[0])|, 2) + EncodeSct(scts[0]) + EncodeItems(scts[1..])
  }

  function EncodeList(scts: seq<Sct>): seq<Byte> {
    BigEndian(|EncodeItems(scts)|, 2) + EncodeItems(scts)
  }

  /** Non-empty, every item and the whole within their 16-bit lengths. */
  ghost predicate Encodable(scts: seq<Sct>) {
    && scts != [] && |EncodeItems(scts)| < 0x1_0000
    && forall i :: 0 <= i < |scts| ==> WellSized(scts[i])
  }

  /** The framed item at index `i`, and the index after it. */
  function ItemAt(body: seq<Byte>, i: nat): (r: Option<(Sct, nat)>)
    requires i < |body|
    ensures r.Some? ==> i < r.value.1 <= |body|
  {
    if |body| < i + 2 || |body| < i + 2 + U16(body[i], body[i + 1]) then None
    else
      var end := i + 2 + U16(body[i], body[i + 1]);
      match ParseSct(body[i + 2..end])
      case None => None
      case Some(s) => Some((s, end))
  }

  /** The items from index `i` on. */
  function ItemsFrom(body: seq<Byte>, i: nat): Option<seq<Sct>>
    requires i <= |body|
    decreases |body| - i
  {
    if i == |body| then Some([])
    else
      match ItemAt(body, i)
      case None => None
      case Some((s, end)) => Prepend([s], ItemsFrom(body, end))
  }

  function ParseList(bytes: seq<Byte>): Option<seq<Sct>> {
    if |bytes| < 2 || |bytes| < 2 + U16(bytes[0], bytes[1]) then None
    else
      var items := ItemsFrom(bytes[2..2 + U16(bytes[0], bytes[1])], 0);
      if items == Some([]) then None else items
  }

  /** What remains of a list parse once `done` has been read off the front. */
  function Prepend(done: seq<Sct>, rest: Option<seq<Sct>>): Option<seq<Sct>> {
    if rest.None? then None else Some(done + rest.value)
  }

  /** Walk the framed items by index. */
  method ParseSctList(bytes: seq<Byte>) returns (r: Option<seq<Sct>>)
    ensures r == ParseList(bytes)
  {
    if |bytes| < 2 {
      return None;
    }
    var total := U16(bytes[0], bytes[1]);
    if |bytes| < 2 + total {
      return None;
    }
    var items := ParseBody(bytes[2..2 + total]);
    r := if items == Some([]) then None else items;
  }

  method ParseBody(body: seq<Byte>) returns (r: Option<seq<Sct>>)
    ensures r == ItemsFrom(body, 0)
  {
    var out := [];
    var i := 0;
    PrependNothing(ItemsFrom(body, 0));
    while i < |body|
      invariant 0 <= i <= |body|
      invariant ItemsFrom(body, 0) == Prepend(out, ItemsFrom(body, i))
    {
      var next := NextItem(body, i);
      match next {
        case None => return None;
        case Some((s, end)) =>
          PrependOne(out, s, ItemsFrom(body, end));
          out := out + [s];
          i := end;
      }
    }
    assert out + [] == out;
    r := Some(out);
  }

  method NextItem(body: seq<Byte>, start: nat) returns (r: Option<(Sct, nat)>)
    requires start < |body|
    ensures r == ItemAt(body, start)
  {
    var i := start;
    if |body| < i + 2 {
      return None;
    }
    var len := U16(body[i], body[i + 1]);
    i := i + 2;
    if |body| < i + len {
      return None;
    }
    var s := ParseSct(body[i..i + len]);
    if s.None? {
      return None;
    }
    i := i + len;
    r := Some((s.value, i));
  }

  lemma PrependNothing(rest: Option<seq<Sct>>)
    ensures Prepend([], rest) == rest
  {
    if rest.Some? {
      assert [] + rest.value == rest.value;
    }
  }

  lemma PrependOne(done: seq<Sct>, s: Sct, rest: Option<seq<Sct>>)
    ensures Prepend(done, Prepend([s], rest)) == Prepend(done + [s], rest)
  {
    if rest.Some? {
      assert done + ([s] + rest.value) == done + [s] + rest.value;
    }
  }

  // ----- Round trips --------------------------------------------------------------------------------------

  /** A 16-bit length reads back. */
  lemma LengthReadsBack(n: nat)
    requires n < 0x1_0000
    ensures U16(BigEndian(n, 2)[0], BigEndian(n, 2)[1]) == n
  {
    Powers();
    NumberOfBytes(n, 2);
    U16IsNumber(BigEndian(n, 2));
  }

  /** The two bytes of a length are its encoding. */
  lemma LengthReencodes(a: Byte, b: Byte)
    ensures BigEndian(U16(a, b), 2) == [a, b] && U16(a, b) < 0x1_0000
  {
    Powers();
    BytesOfNumber([a, b]);
    U16IsNumber([a, b]);
  }

  lemma ItemAfter(before: seq<Byte>, head: seq<Byte>, item: seq<Byte>, after: seq<Byte>)
    requires |head| == 2 && U16(head[0], head[1]) == |item| && ParseSct(item).Some?
    ensures ItemAt(before + head + item + after, |before|) == Some((ParseSct(item).value, |before + head + item|))
  {
    var body := before + head + item + after;
    assert body[|before| + 2..|before| + 2 + |item|] == item;
  }

  /** Encoded items parse back, wherever in a body they stand at the end. */
  lemma {:induction false} ItemsRoundTrip(before: seq<Byte>, scts: seq<Sct>)
    requires |EncodeItems(scts)| < 0x1_0000 && forall i :: 0 <= i < |scts| ==> WellSized(scts[i])
    ensures ItemsFrom(before + EncodeItems(scts), |before|) == Some(scts)
    decreases scts
  {
    if scts == [] {
      assert before + EncodeItems(scts) == before;
    } else {
      var item, after := EncodeSct(scts[0]), EncodeItems(scts[1..]);
      var head := BigEndian(|item|, 2);
      assert before + EncodeItems(scts) == before + head + item + after;
      LengthReadsBack(|item|);
      ParseInvertsEncode(scts[0]);
      ItemAfter(before, head, item, after);
      ItemsRoundTrip(before + head + item, scts[1..]);
      assert scts == [scts[0]] + scts[1..];
    }
  }

  lemma FramedReencodes(head: seq<Byte>, item: seq<Byte>, s: Sct)
    requires |head| == 2 && U16(head[0], head[1]) == |item| && ParseSct(item) == Some(s)
    ensures WellSized(s) && EncodeSct(s) == item && BigEndian(|item|, 2) == head
  {
    LengthReencodes(head[0], head[1]);
    EncodeInvertsParse(item);
  }

  lemma ItemBytes(body: seq<Byte>, i: nat, s: Sct, end: nat) returns (head: seq<Byte>, item: seq<Byte>)
    requires i < |body| && ItemAt(body, i) == Some((s, end))
    ensures end <= |body| && |head| == 2 && U16(head[0], head[1]) == |item| && ParseSct(item) == Some(s)
    ensures head + item == body[i..end]
  {
    head, item := [body[i], body[i + 1]], body[i + 2..end];
  }

  /** An accepted item in front of encoded ones re-encodes, with its length, to the bytes
      it was read from. */
  lemma ItemReencodes(body: seq<Byte>, i: nat, s: Sct, end: nat, rest: seq<Sct>)
    requires i < |body| && ItemAt(body, i) == Some((s, end)) && EncodeItems(rest) == body[end..]
    ensures WellSized(s) && EncodeItems([s] + rest) == body[i..]
  {
    var head, item := ItemBytes(body, i, s, end);
    FramedReencodes(head, item, s);
    EncodePrepended(s, rest);
    assert body[i..] == body[i..end] + body[end..];
  }

  lemma {:induction false} ItemsReencode(body: seq<Byte>, i: nat)
    requires i <= |body| && ItemsFrom(body, i).Some?
    ensures EncodeItems(ItemsFrom(body, i).value) == body[i..]
    ensures forall s :: s in ItemsFrom(body, i).value ==> WellSized(s)
    decreases |body| - i
  {
    if i < |body| {
      var (s, end) := ItemAt(body, i).value;
      ItemsReencode(body, end);
      ItemReencodes(body, i, s, end, ItemsFrom(body, end).value);
    }
  }

  lemma EncodePrepended(s: Sct, rest: seq<Sct>)
    ensures EncodeItems([s] + rest) == BigEndian(|EncodeSct(s)|, 2) + EncodeSct(s) + EncodeItems(rest)
  {
    assert ([s] + rest)[1..] == rest;
  }

  /** Every encodable list parses back to itself, whatever follows it. */
  lemma ListRoundTrip(scts: seq<Sct>, trailing: seq<Byte>)
    requires Encodable(scts)
    ensures ParseList(EncodeList(scts) + trailing) == Some(scts)
  {
    var items := EncodeItems(scts);
    var bytes := EncodeList(scts) + trailing;
    LengthReadsBack(|items|);
    assert bytes[2..2 + |items|] == items;
    ItemsRoundTrip([], scts);
    assert [] + items == items;
  }

  /** Every accepted list is encodable and re-encodes to exactly its declared bytes. */
  lemma AcceptedListReencodes(bytes: seq<Byte>)
    requires ParseList(bytes).Some?
    ensures Encodable(ParseList(bytes).value)
    ensures EncodeList(ParseList(bytes).value) == bytes[..2 + U16(bytes[0], bytes[1])]
  {
    var body := bytes[2..2 + U16(bytes[0], bytes[1])];
    LengthReencodes(bytes[0], bytes[1]);
    ItemsReencode(body, 0);
    assert body[0..] == body;
    assert bytes[..2 + |body|] == [bytes[0], bytes[1]] + body;
  }

  // ----- The signed structure ---------------------------------------------------------------------------

  /** The structure a precertificate timestamp signs, appended piece by piece. */
  method SctSignedEntry(s: Sct, issuerKeyHash: seq<Byte>, tbs: seq<Byte>) returns (out: seq<Byte>)
    ensures out == SignedEntry(s, issuerKeyHash, tbs)
  {
    out := [0];
    out := out + [0];
    assert out == [0, 0];
    out := out + BigEndian(s.timestamp, 8);
    out := out + [0, 1];
    out := out + issuerKeyHash;
    var len := |tbs| % 0x1_0000_0000;
    out := out + BigEndian(len, 4)[1..];
    LowThreeBytes(|tbs|);
    out := out + tbs;
    out := out + BigEndian(|s.extensions| % 0x1_0000, 2);
    LowTwoBytes(|s.extensions|);
    out := out + s.extensions;
  }

  function SignedEntry(s: Sct, issuerKeyHash: seq<Byte>, tbs: seq<Byte>): seq<Byte> {
    [0, 0] + BigEndian(s.timestamp, 8) + [0, 1] + issuerKeyHash
    + BigEndian(|tbs|, 3) + tbs + BigEndian(|s.extensions|, 2) + s.extensions
  }

  /** One byte shifted out: what stays above the low bytes stays above them. */
  lemma ShiftByte(low: nat, high: nat)
    ensures (low + 256 * high) % 256 == low % 256 && (low + 256 * high) / 256 == low / 256 + high
  {
  }

  /** High bytes do not show in the low ones. */
  lemma {:induction false} LowBytes(n: nat, m: nat, k: nat)
    ensures BigEndian(n + m * Pow256(k), k) == BigEndian(n, k)
  {
    if k > 0 {
      Carry(m, k);
      ShiftByte(n, m * Pow256(k - 1));
      LowBytes(n / 256, m, k - 1);
    }
  }

  lemma Carry(m: nat, k: nat)
    requires k > 0
    ensures m * Pow256(k) == 256 * (m * Pow256(k - 1))
  {
    var p := Pow256(k - 1);
    assert m * (256 * p) == 256 * (m * p);
  }

  lemma {:induction false} DropHighByte(n: nat, k: nat)
    ensures BigEndian(n, k + 1)[1..] == BigEndian(n, k)
  {
    if k > 0 {
      DropHighByte(n / 256, k - 1);
      assert BigEndian(n, k + 1)[1..] == BigEndian(n / 256, k)[1..] + [n % 256];
    }
  }

  lemma LowTwoBytes(n: nat)
    ensures BigEndian(n % 0x1_0000, 2) == BigEndian(n, 2)
  {
    Powers();
    LowBytes(n % 0x1_0000, n / 0x1_0000, 2);
  }

  lemma LowThreeBytes(n: nat)
    ensures BigEndian(n % 0x1_0000_0000, 4)[1..] == BigEndian(n, 3)
  {
    Powers();
    DropHighByte(n % 0x1_0000_0000, 3);
    LowBytes(n % 0x1_0000_0000, n / 0x1_0000_0000 * 256, 3);
  }

  /** Within the length bounds the signed bytes determine everything they are made of. */
  lemma SignedEntryIsInjective(s: Sct, hash: seq<Byte>, tbs: seq<Byte>, s': Sct, hash': seq<Byte>, tbs': seq<Byte>)
    requires WellSized(s) && WellSized(s') && |hash| == |hash'| == 32
    requires |tbs| < 0x100_0000 && |tbs'| < 0x100_0000
    requires SignedEntry(s, hash, tbs) == SignedEntry(s', hash', tbs')
    ensures s.timestamp == s'.timestamp && s.extensions == s'.extensions && hash == hash' && tbs == tbs'
  {
    SignedFields(s, hash, tbs);
    SignedFields(s', hash', tbs');
    Powers();
    NumberOfBytes(s.timestamp, 8);
    NumberOfBytes(s'.timestamp, 8);
    NumberOfBytes(|tbs|, 3);
    NumberOfBytes(|tbs'|, 3);
  }

  /** The signed bytes, one by one: version 1, certificate timestamp, the time, precertificate
      entry, the issuer's key hash, and the two length-prefixed parts. */
  lemma SignedBytes(s: Sct, hash: seq<Byte>, tbs: seq<Byte>)
    requires WellSized(s) && |hash| == 32 && |tbs| < 0x100_0000
    ensures var b := SignedEntry(s, hash, tbs); var n := |tbs|; var x := |s.extensions|;
      && |b| == 49 + n + x && b[0] == 0 && b[1] == 0 && Number(b[2..10]) == s.timestamp
      && b[10] == 0 && b[11] == 1 && b[12..44] == hash
      && Number(b[44..47]) == n && b[47..47 + n] == tbs
      && U16(b[47 + n], b[48 + n]) == x && b[49 + n..] == s.extensions
  {
    SignedFields(s, hash, tbs);
    Powers();
    NumberOfBytes(s.timestamp, 8);
    NumberOfBytes(|tbs|, 3);
    LengthReadsBack(|s.extensions|);
    SignedLengths(s, hash, tbs);
  }

  lemma SignedLengths(s: Sct, hash: seq<Byte>, tbs: seq<Byte>)
    requires |hash| == 32
    ensures var b := SignedEntry(s, hash, tbs); var n := |tbs|;
      && |b| == 49 + n + |s.extensions| && b[0] == 0 && b[1] == 0 && b[10] == 0 && b[11] == 1
      && b[47 + n] == BigEndian(|s.extensions|, 2)[0] && b[48 + n] == BigEndian(|s.extensions|, 2)[1]
  {
  }

  lemma SignedFields(s: Sct, hash: seq<Byte>, tbs: seq<Byte>)
    requires |hash| == 32
    ensures var b := SignedEntry(s, hash, tbs);
      && |b| == 49 + |tbs| + |s.extensions|
      && b[2..10] == BigEndian(s.timestamp, 8) && b[12..44] == hash
      && b[44..47] == BigEndian(|tbs|, 3) && b[47..47 + |tbs|] == tbs && b[49 + |tbs|..] == s.extensions
  {
  }
}
