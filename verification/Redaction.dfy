// The byte budget of redact() in app/tool_factory/redaction.py. The pattern substitutions
// come first; this model starts from their result.
module Redaction {
  import opened Wrappers
  import opened Utf8

  // "\n...[truncated]"
  const TRUNCATED: seq<CodePoint> :=
    [10, 46, 46, 46, 91, 116, 114, 117, 110, 99, 97, 116, 101, 100, 93]

  // errors="replace" encodes a lone surrogate as '?'.
  function Replaced(text: seq<CodePoint>): (r: seq<CodePoint>)
    ensures Scalars(r) && |r| == |text|
    ensures Scalars(text) ==> r == text
  {
    seq(|text|, i requires 0 <= i < |text| => if IsSurrogate(text[i]) then 63 else text[i])
  }

  // The number of leading code points whose encoding fits a budget.
  function Fitting(text: seq<CodePoint>, budget: int): (n: nat)
    ensures n <= |text|
  {
    if text == [] || Width(text[0]) > budget then 0
    else 1 + Fitting(text[1..], budget - Width(text[0]))
  }

  // It is the largest such number.
  lemma {:induction false} FittingIsLongest(text: seq<CodePoint>, budget: nat)
    ensures |Encode(text[..Fitting(text, budget)])| <= budget
    ensures forall n | Fitting(text, budget) < n <= |text| :: |Encode(text[..n])| > budget
  {
    if text == [] {
    } else if Width(text[0]) > budget {
      forall n | 0 < n <= |text| ensures |Encode(text[..n])| > budget {
        assert text[..n][0] == text[0];
      }
    } else {
      var w := Width(text[0]);
      FittingIsLongest(text[1..], budget - w);
      forall n | 0 < n <= |text| ensures |Encode(text[..n])| == w + |Encode(text[1..][..n - 1])| {
        assert text[..n][1..] == text[1..][..n - 1];
      }
    }
  }

  // The bytes left unused by the longest fitting prefix are fewer than the next character.
  lemma {:induction false} UnusedBytes(text: seq<CodePoint>, budget: nat)
    requires Fitting(text, budget) < |text|
    ensures budget - |Encode(text[..Fitting(text, budget)])| < Width(text[Fitting(text, budget)])
  {
    var n := Fitting(text, budget);
    FittingIsLongest(text, budget);
    assert text[..n + 1] == text[..n] + [text[n]];
    EncodeAppend(text[..n], [text[n]]);
    assert [text[n]][1..] == [];
  }

  // Byte prefixes that decode are the encodings of text prefixes.
  lemma DecodableCut(text: seq<CodePoint>, cut: nat)
    requires Scalars(text) && cut <= |Encode(text)| && Decode(Encode(text)[..cut]).Some?
    ensures var x := Decode(Encode(text)[..cut]).value;
      x <= text && |Encode(x)| == cut && |x| <= Fitting(text, cut)
  {
    var x := Decode(Encode(text)[..cut]).value;
    EncodeInvertsDecode(Encode(text)[..cut]);
    EncodingPrefix(x, text);
    FittingIsLongest(text, cut);
    assert x == text[..|x|];
  }

  lemma CutAtFitting(text: seq<CodePoint>, budget: nat)
    requires Scalars(text)
    ensures var x := text[..Fitting(text, budget)];
      |Encode(x)| <= |Encode(text)| && Decode(Encode(text)[..|Encode(x)|]) == Some(x)
  {
    var n := Fitting(text, budget);
    var x := text[..n];
    assert text == x + text[n..];
    EncodeAppend(x, text[n..]);
    assert Encode(text)[..|Encode(x)|] == Encode(x);
    DecodeInvertsEncode(x);
  }

  // A longer fitting prefix is never decoded at a smaller cut.
  lemma {:induction false} FittingMonotone(text: seq<CodePoint>, a: int, b: int)
    requires a <= b
    ensures Fitting(text, a) <= Fitting(text, b)
  {
    if text != [] && Width(text[0]) <= a {
      FittingMonotone(text[1..], a - Width(text[0]), b - Width(text[0]));
    }
  }

  // Cuts between the longest fitting prefix and the budget do not decode.
  lemma UndecodableCut(text: seq<CodePoint>, budget: nat, cut: nat)
    requires Scalars(text) && cut <= budget && cut <= |Encode(text)|
    requires |Encode(text[..Fitting(text, budget)])| < cut
    ensures Decode(Encode(text)[..cut]).None?
  {
    if Decode(Encode(text)[..cut]).Some? {
      DecodableCut(text, cut);
      var x := Decode(Encode(text)[..cut]).value;
      FittingMonotone(text, cut, budget);
      var n := Fitting(text, budget);
      assert x == text[..|x|] && text[..n] == x + text[|x|..n];
      EncodeAppend(x, text[|x|..n]);
    }
  }

  // What remains of a non-empty text over its budget: the longest prefix of whole code
  // points that fits. When not even the first one fits (in particular for a budget below
  // one) the loop runs out of cuts and everything stays.
  function Kept(text: seq<CodePoint>, budget: int): seq<CodePoint>
    requires text != []
  {
    var whole := Replaced(text);
    if Width(whole[0]) <= budget then whole[..Fitting(whole, budget)] else text
  }

  function Clipped(text: seq<CodePoint>, maxBytes: Option<int>): seq<CodePoint> {
    if text == [] || maxBytes.None? || |Encode(Replaced(text))| <= maxBytes.value then text
    else Kept(text, maxBytes.value) + TRUNCATED
  }

  // The cut loop; `back` counts the bytes it gave up.
  method Truncate(text: seq<CodePoint>, maxBytes: Option<int>) returns (redacted: seq<CodePoint>, back: nat)
    ensures redacted == Clipped(text, maxBytes)
    ensures maxBytes.Some? && 4 <= maxBytes.value ==> back <= 3
  {
    redacted, back := text, 0;
    if text == [] {
      return;
    }
    if maxBytes.Some? && |Encode(Replaced(text))| > maxBytes.value {
      var cut := maxBytes.value;
      var encoded := Encode(Replaced(text));
      ghost var whole := Replaced(text);
      ghost var n := Fitting(whole, cut);
      ghost var stop := |Encode(whole[..n])|;
      if cut >= 0 {
        FittingIsLongest(whole, cut);
        CutAtFitting(whole, cut);
        assert n < |whole| by { assert whole[..|whole|] == whole; }
        UnusedBytes(whole, cut);
      }
      while cut > 0
        invariant back == maxBytes.value - cut
        invariant 0 <= maxBytes.value ==> stop <= cut <= maxBytes.value
        invariant maxBytes.value < 0 ==> cut == maxBytes.value
        invariant redacted == text
        decreases cut
      {
        var decoded := Decode(encoded[..cut]);
        if decoded.Some? {
          if stop < cut { UndecodableCut(whole, maxBytes.value, cut); }
          redacted := decoded.value;
          break;
        }
        cut := cut - 1;
        back := back + 1;
      }
      redacted := redacted + TRUNCATED;
    }
  }

  // The cut is meant to leave a text under the budget. For a text over the budget it does
  // exactly when the first character fits, as it always does from four bytes on.
  lemma BudgetKeptIffFirstFits(text: seq<CodePoint>, budget: int)
    requires text != [] && |Encode(Replaced(text))| > budget
    ensures |Encode(Replaced(Kept(text, budget)))| <= budget <==> Width(Replaced(text)[0]) <= budget
    ensures budget >= 4 ==> Width(Replaced(text)[0]) <= budget
  {
    if Width(Replaced(text)[0]) <= budget {
      FittingIsLongest(Replaced(text), budget);
    }
  }

  // Two bytes for one four-byte character: everything is kept.
  lemma SmallBudgetKeepsAll()
    ensures var text := [0x1F600]; |Encode(Replaced(text))| == 4 && Kept(text, 2) == text
  {
  }

  // From four bytes on, a clipped text is at most the budget and the marker long.
  lemma {:induction false} ClippedLength(text: seq<CodePoint>, budget: int)
    requires budget >= 4
    ensures |Encode(Replaced(Clipped(text, Some(budget))))| <= budget + |TRUNCATED|
  {
    if text != [] && |Encode(Replaced(text))| > budget {
      BudgetKeptIffFirstFits(text, budget);
      AsciiSuffix(Kept(text, budget), TRUNCATED);
    }
  }

  lemma AsciiSuffix(text: seq<CodePoint>, suffix: seq<CodePoint>)
    requires forall i | 0 <= i < |suffix| :: suffix[i] < 0x80
    ensures |Encode(Replaced(text + suffix))| == |Encode(Replaced(text))| + |suffix|
  {
    assert Replaced(text + suffix) == Replaced(text) + Replaced(suffix);
    EncodeAppend(Replaced(text), Replaced(suffix));
    AsciiLength(suffix);
  }

  lemma {:induction false} AsciiLength(text: seq<CodePoint>)
    requires forall i | 0 <= i < |text| :: text[i] < 0x80
    ensures |Encode(text)| == |text|
  {
    if text != [] { AsciiLength(text[1..]); }
  }
}
