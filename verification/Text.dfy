// The few Python string operations the system leans on: str.split(), str.strip(),
// str.replace(), substring search and the decimal form of a number.
module Text {

  // The characters for which str.isspace() holds, i.e. the separators of split() and strip().
  predicate IsSpace(c: char) {
    || '\t' <= c <= '\r'
    || '\U{1c}' <= c <= ' '
    || c == '\U{85}' || c == '\U{a0}' || c == '\U{1680}'
    || '\U{2000}' <= c <= '\U{200a}'
    || c == '\U{2028}' || c == '\U{2029}' || c == '\U{202f}' || c == '\U{205f}' || c == '\U{3000}'
  }

  predicate AllSpace(s: string) {
    forall i | 0 <= i < |s| :: IsSpace(s[i])
  }

  predicate NoSpace(s: string) {
    forall i | 0 <= i < |s| :: !IsSpace(s[i])
  }

  predicate Any(s: string, p: char -> bool) {
    exists i | 0 <= i < |s| :: p(s[i])
  }

  function LeadingSpaces(s: string): (n: nat)
    ensures n <= |s|
    ensures forall i | 0 <= i < n :: IsSpace(s[i])
    ensures n < |s| ==> !IsSpace(s[n])
  {
    if s == [] || !IsSpace(s[0]) then 0 else 1 + LeadingSpaces(s[1..])
  }

  function StripRight(s: string): (r: string)
    ensures r <= s && AllSpace(s[|r|..])
    ensures r != [] ==> !IsSpace(r[|r| - 1])
  {
    if s == [] || !IsSpace(s[|s| - 1]) then s
    else
      var rest := StripRight(s[..|s| - 1]);
      assert s[|rest|..] == s[..|s| - 1][|rest|..] + [s[|s| - 1]];
      rest
  }

  // str.strip()
  function Strip(s: string): string {
    StripRight(s[LeadingSpaces(s)..])
  }

  // str.split() without arguments; `word` is the word read so far.
  function SplitFrom(s: string, word: string): seq<string> {
    if s == [] then
      if word == [] then [] else [word]
    else if IsSpace(s[0]) then
      (if word == [] then [] else [word]) + SplitFrom(s[1..], [])
    else
      SplitFrom(s[1..], word + [s[0]])
  }

  function Split(s: string): seq<string> {
    SplitFrom(s, [])
  }

  predicate OccursAt(s: string, part: string, i: nat) {
    i + |part| <= |s| && s[i..i + |part|] == part
  }

  // part in s
  predicate Contains(s: string, part: string) {
    exists i | 0 <= i <= |s| :: OccursAt(s, part, i)
  }

  // str.replace(part, value): every leftmost non-overlapping occurrence.
  function Replace(s: string, part: string, value: string): string
    requires part != []
    decreases |s|
  {
    if s == [] then []
    else if part <= s then value + Replace(s[|part|..], part, value)
    else [s[0]] + Replace(s[1..], part, value)
  }

  // A text is its outer white space around its stripped form.
  lemma StripSplits(s: string) returns (before: string, after: string)
    ensures s == before + (Strip(s) + after) && AllSpace(before) && AllSpace(after)
    ensures Strip(s) != [] ==> !IsSpace(Strip(s)[0])
  {
    var n := LeadingSpaces(s);
    var left := s[n..];
    before := s[..n];
    after := left[|StripRight(left)|..];
  }

  // Characters that are not white space extend the word being read.
  lemma {:induction false} SplitSkipsWord(x: string, rest: string, word: string)
    requires NoSpace(x)
    ensures SplitFrom(x + rest, word) == SplitFrom(rest, word + x)
  {
    if x == [] {
      assert x + rest == rest && word + x == word;
    } else {
      SplitSkipsWord(x[1..], rest, word + [x[0]]);
      assert (x + rest)[1..] == x[1..] + rest;
      assert word + [x[0]] + x[1..] == word + x;
    }
  }

  // A stretch without the pattern's first character is copied unchanged.
  lemma {:induction false} ReplaceSkips(x: string, rest: string, part: string, value: string)
    requires part != [] && part[0] !in x
    ensures Replace(x + rest, part, value) == x + Replace(rest, part, value)
  {
    if x == [] {
      assert x + rest == rest;
    } else {
      assert (x + rest)[0] == x[0] && x[0] in x;
      assert (x + rest)[1..] == x[1..] + rest;
      ReplaceSkips(x[1..], rest, part, value);
    }
  }

  lemma AnyAppend(x: string, y: string, p: char -> bool)
    ensures Any(x + y, p) <==> Any(x, p) || Any(y, p)
  {
    assert forall i | 0 <= i < |x| :: (x + y)[i] == x[i];
    assert forall i | 0 <= i < |y| :: (x + y)[|x| + i] == y[i];
  }

  // str() of a natural number.
  function Decimal(n: nat): (s: string)
    ensures s != []
  {
    (if n < 10 then [] else Decimal(n / 10)) + [('0' as int + n % 10) as char]
  }

  lemma {:induction false} DecimalHasDigits(n: nat)
    ensures forall i | 0 <= i < |Decimal(n)| :: '0' <= Decimal(n)[i] <= '9'
  {
    if n >= 10 {
      DecimalHasDigits(n / 10);
    }
  }
}
