/**
 The bound on a child's stderr diagnostic. The text is encoded, cut at four candidate byte counts, and
 the first cut that decodes is kept.
 */
module ChildDiagnostics {
  import opened Common
  import opened Utf8

  const DIAGNOSTIC_BYTE_LIMIT: nat := 4096
  const MAXIMUM_CODE_POINT_BYTES: nat := 4
  const BYTE_ORDER_MARK: Scalar := 0xFEFF

  datatype Bounded = Bounded(text: seq<Scalar>, truncated: bool)

  /** The decoder used for the cuts is not told to keep a leading byte-order mark, so it drops one. */
  function WithoutMark(text: seq<Scalar>): seq<Scalar> {
    if text != [] && text[0] == BYTE_ORDER_MARK then text[1..] else text
  }

  /** The decodings of the cuts that decode, in order of the number of bytes removed. */
  function Prefixes(encoded: seq<byte>, removed: nat): seq<seq<Scalar>>
    requires DIAGNOSTIC_BYTE_LIMIT <= |encoded|
    requires removed <= MAXIMUM_CODE_POINT_BYTES
    decreases MAXIMUM_CODE_POINT_BYTES - removed
  {
    if removed == MAXIMUM_CODE_POINT_BYTES then
      []
    else
      var decoded := Decode(encoded[..DIAGNOSTIC_BYTE_LIMIT - removed]);
      (if decoded.Some? then [WithoutMark(decoded.value)] else []) + Prefixes(encoded, removed + 1)
  }

  function BoundUtf8(text: seq<Scalar>): Bounded {
    var encoded := Encode(text);
    if |encoded| <= DIAGNOSTIC_BYTE_LIMIT then
      Bounded(text, false)
    else
      var prefixes := Prefixes(encoded, 0);
      Bounded(if prefixes == [] then [] else prefixes[0], true)
  }

  /** `kept` scalars is the most of `text` whose encoding fits the limit. */
  ghost predicate IsLongestFit(text: seq<Scalar>, kept: nat) {
    && kept < |text|
    && |Encode(text[..kept])| <= DIAGNOSTIC_BYTE_LIMIT
    && |Encode(text[..kept + 1])| > DIAGNOSTIC_BYTE_LIMIT
  }

  lemma EncodeStep(text: seq<Scalar>, k: nat)
    requires k < |text|
    ensures |Encode(text[..k])| < |Encode(text[..k + 1])| <= |Encode(text[..k])| + MAXIMUM_CODE_POINT_BYTES
  {
    assert text[..k + 1] == text[..k] + [text[k]];
    EncodeAppend(text[..k], [text[k]]);
    assert Encode([text[k]]) == EncodeScalar(text[k]);
  }

  lemma {:induction false} EncodeGrows(text: seq<Scalar>, j: nat, k: nat)
    requires j < k <= |text|
    ensures |Encode(text[..j])| < |Encode(text[..k])|
  {
    EncodeStep(text, k - 1);
    if j < k - 1 {
      EncodeGrows(text, j, k - 1);
    }
  }

  lemma {:induction false} LongestFit(text: seq<Scalar>, n: nat) returns (kept: nat)
    requires n <= |text|
    requires |Encode(text[..n])| > DIAGNOSTIC_BYTE_LIMIT
    ensures IsLongestFit(text, kept)
  {
    assert text[..0] == [];
    if |Encode(text[..n - 1])| <= DIAGNOSTIC_BYTE_LIMIT {
      kept := n - 1;
    } else {
      kept := LongestFit(text, n - 1);
    }
  }

  /** A cut decodes exactly when it falls on a code-point boundary, and then to the scalars before it. */
  lemma {:induction false} CutDecodes(text: seq<Scalar>, n: nat)
    requires n <= |Encode(text)|
    ensures Decode(Encode(text)[..n]).Some? <==> exists k: nat :: k <= |text| && |Encode(text[..k])| == n
    ensures forall k: nat :: k <= |text| && |Encode(text[..k])| == n ==> Decode(Encode(text)[..n]) == Some(text[..k])
  {
    var cut := Encode(text)[..n];
    if Decode(cut).Some? {
      EncodeDecode(cut);
      var ts := Decode(cut).value;
      EncodedPrefix(ts, text);
      assert text[..|ts|] == ts;
    }
    forall k: nat | k <= |text| && |Encode(text[..k])| == n
      ensures Decode(cut) == Some(text[..k])
    {
      assert text == text[..k] + text[k..];
      EncodeAppend(text[..k], text[k..]);
      assert cut == Encode(text[..k]);
      DecodeEncode(text[..k]);
    }
  }

  /** No other prefix ends in the slack below the limit. */
  lemma {:induction false} NoOtherCut(text: seq<Scalar>, kept: nat, n: nat, k: nat)
    requires IsLongestFit(text, kept) && kept < |text| && k <= |text|
    requires |Encode(text[..kept])| < n <= DIAGNOSTIC_BYTE_LIMIT
    ensures |Encode(text[..k])| != n
  {
    if k < kept {
      EncodeGrows(text, k, kept);
    } else if kept + 1 < k {
      EncodeGrows(text, kept + 1, k);
    }
  }

  /** Among the cuts still to try, the first that decodes is the longest fit. */
  lemma {:induction false} FirstPrefix(text: seq<Scalar>, kept: nat, removed: nat)
    requires |Encode(text)| > DIAGNOSTIC_BYTE_LIMIT
    requires removed < MAXIMUM_CODE_POINT_BYTES
    requires IsLongestFit(text, kept)
    requires |Encode(text[..kept])| <= DIAGNOSTIC_BYTE_LIMIT - removed
    ensures var ps := Prefixes(Encode(text), removed); ps != [] && ps[0] == WithoutMark(text[..kept])
    decreases MAXIMUM_CODE_POINT_BYTES - removed
  {
    var n := DIAGNOSTIC_BYTE_LIMIT - removed;
    CutDecodes(text, n);
    EncodeStep(text, kept);
    if |Encode(text[..kept])| != n {
      forall k: nat | k <= |text| ensures |Encode(text[..k])| != n {
        NoOtherCut(text, kept, n, k);
      }
      FirstPrefix(text, kept, removed + 1);
    }
  }

  /**
   A text within the limit is returned whole. A longer one is cut to the longest prefix of whole code
   points within the limit, which loses at most three bytes of the allowance; a leading byte-order
   mark, and nothing else, is dropped from that prefix.
   */
  lemma TruncationIsLongestFit(text: seq<Scalar>) returns (kept: nat)
    ensures |Encode(text)| <= DIAGNOSTIC_BYTE_LIMIT ==> BoundUtf8(text) == Bounded(text, false) && kept == |text|
    ensures |Encode(text)| > DIAGNOSTIC_BYTE_LIMIT ==>
              && IsLongestFit(text, kept)
              && DIAGNOSTIC_BYTE_LIMIT - 3 <= |Encode(text[..kept])| <= DIAGNOSTIC_BYTE_LIMIT
              && BoundUtf8(text) == Bounded(WithoutMark(text[..kept]), true)
  {
    if |Encode(text)| <= DIAGNOSTIC_BYTE_LIMIT {
      kept := |text|;
    } else {
      assert text[..|text|] == text;
      kept := LongestFit(text, |text|);
      EncodeStep(text, kept);
      FirstPrefix(text, kept, 0);
    }
  }

  /** The diagnostic that is returned never encodes to more than the limit. */
  lemma {:induction false} DiagnosticIsBounded(text: seq<Scalar>)
    ensures |Encode(BoundUtf8(text).text)| <= DIAGNOSTIC_BYTE_LIMIT
    ensures BoundUtf8(text).truncated <==> |Encode(text)| > DIAGNOSTIC_BYTE_LIMIT
  {
    var kept := TruncationIsLongestFit(text);
    if |Encode(text)| > DIAGNOSTIC_BYTE_LIMIT {
      var cut := text[..kept];
      if cut != [] && cut[0] == BYTE_ORDER_MARK {
        assert cut == [cut[0]] + cut[1..];
        EncodeAppend([cut[0]], cut[1..]);
      }
    }
  }
}
