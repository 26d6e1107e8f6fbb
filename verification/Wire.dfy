/** The framing of a signed descriptor: two length bytes, the payload, a 64-byte signature. */
module Wire {
  import opened Prelude
  import Utf8

  type Byte = Utf8.Byte
  type Bytes = Utf8.Bytes

  const SIGNATURE := 64
  const LONGEST := 65535

  datatype Encoded = Blob(bytes: Bytes) | SignError

  function EncodeBlob(payload: Bytes, signature: Bytes): Encoded {
    if |signature| != SIGNATURE || |payload| > LONGEST then SignError
    else Blob([|payload| / 256, |payload| % 256] + payload + signature)
  }

  function Word(high: int, low: int): int { high * 256 + low }

  /** The payload and the signature, if the lengths fit. */
  function Split(blob: Bytes): Option<(Bytes, Bytes)> {
    if |blob| < 2 + SIGNATURE then None
    else
      var n := Word(blob[0], blob[1]);
      if |blob| != 2 + n + SIGNATURE then None else Some((blob[2..2 + n], blob[2 + n..]))
  }

  /** A blob splits into what it was made of, and only what was made of them splits so. */
  lemma SplitExactly(blob: Bytes, payload: Bytes, signature: Bytes)
    ensures Split(blob) == Some((payload, signature)) <==> EncodeBlob(payload, signature) == Blob(blob)
  {
    if EncodeBlob(payload, signature) == Blob(blob) {
      assert blob[2..2 + |payload|] == payload && blob[2 + |payload|..] == signature;
    }
    if Split(blob) == Some((payload, signature)) {
      assert Word(blob[0], blob[1]) / 256 == blob[0] && Word(blob[0], blob[1]) % 256 == blob[1];
      assert blob == [blob[0], blob[1]] + payload + signature;
    }
  }

  /** Which bytes a payload and its signature are framed as: the length of the payload first, its high
      byte before its low one. */
  lemma FramedExactly(blob: Bytes, payload: Bytes, signature: Bytes)
    ensures EncodeBlob(payload, signature) == Blob(blob) <==>
      && |signature| == 64 && |payload| <= 65535 && |blob| == 2 + |payload| + 64
      && blob[0] as int * 256 + blob[1] as int == |payload|
      && blob[2..2 + |payload|] == payload && blob[2 + |payload|..] == signature
  {
    if |signature| == 64 && |payload| <= 65535 && |blob| == 2 + |payload| + 64
       && blob[0] as int * 256 + blob[1] as int == |payload|
       && blob[2..2 + |payload|] == payload && blob[2 + |payload|..] == signature {
      assert |payload| / 256 == blob[0] && |payload| % 256 == blob[1];
      assert blob == [blob[0], blob[1]] + blob[2..2 + |payload|] + blob[2 + |payload|..];
    } else if EncodeBlob(payload, signature) == Blob(blob) {
      SplitExactly(blob, payload, signature);
    }
  }
}
