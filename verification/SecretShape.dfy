/** The credential-assignment scan and the hex-run scan of the secret filter. */
module SecretShape {

  /** ASCII lower-casing; other characters stay. */
  function LowerChar(c: char): char {
    if 'A' <= c <= 'Z' then ((c as int) + 32) as char else c
  }

  function Lowered(s: string): (r: string)
    ensures |r| == |s|
  {
    seq(|s|, i requires 0 <= i < |s| => LowerChar(s[i]))
  }

  predicate Alphanumeric(c: char) {
    'a' <= c <= 'z' || 'A' <= c <= 'Z' || '0' <= c <= '9'
  }

  predicate IdentChar(c: char) { Alphanumeric(c) || c == '_' || c == '-' }

  /** The Unicode White_Space property. */
  predicate Whitespace(c: char) {
    var n := c as int;
    9 <= n <= 13 || n == 0x20 || n == 0x85 || n == 0xA0 || n == 0x1680 || 0x2000 <= n <= 0x200A
    || n == 0x2028 || n == 0x2029 || n == 0x202F || n == 0x205F || n == 0x3000
  }

  function Utf8Len(s: string): nat {
    if s == [] then 0
    else
      var n := s[0] as int;
      (if n < 0x80 then 1 else if n < 0x800 then 2 else if n < 0x10000 then 3 else 4) + Utf8Len(s[1..])
  }

  function DropWhile(s: string, p: char -> bool): string {
    if s != [] && p(s[0]) then DropWhile(s[1..], p) else s
  }

  function TakeUntil(s: string, p: char -> bool): string {
    if s == [] || p(s[0]) then [] else [s[0]] + TakeUntil(s[1..], p)
  }

  predicate Quote(c: char) { c == '"' || c == '\'' }
  predicate EndsToken(c: char) { Whitespace(c) || Quote(c) || c == ',' || c == ';' }

  const KEYWORDS: seq<string> :=
    ["password", "passwd", "secret", "token", "api_key", "apikey", "access_token", "auth_token", "private_key"]

  // ---- the declarative rule ----

  predicate Occurs(s: string, kw: string, i: nat) {
    i + |kw| <= |s| && s[i..i + |kw|] == kw
  }

  /** How long the separator at the front is; 0 when there is none. */
  function SeparatorLen(s: string): (n: nat)
    ensures n <= |s|
  {
    if ":=" <= s then 2
    else if "=" <= s || ":" <= s then 1
    else 0
  }

  /** The value token behind the separator. */
  function ValueToken(s: string): string {
    TakeUntil(DropWhile(DropWhile(s[SeparatorLen(s)..], Whitespace), Quote), EndsToken)
  }

  /** The keyword at `i` starts a word and is followed by a separator and a long enough value. */
  predicate Qualifies(s: string, kw: string, i: nat)
    requires i + |kw| <= |s|
  {
    (i == 0 || !IdentChar(s[i - 1]))
    && var rest := DropWhile(s[i + |kw|..], Whitespace);
       SeparatorLen(rest) > 0
       && Utf8Len(ValueToken(rest)) >= 20
       && exists k | 0 <= k < |ValueToken(rest)| :: Alphanumeric(ValueToken(rest)[k])
  }

  predicate AssignmentAt(s: string, kw: string, i: nat) { Occurs(s, kw, i) && Qualifies(s, kw, i) }

  ghost predicate HasAssignment(s: string, kw: string) { exists i: nat :: AssignmentAt(s, kw, i) }

  // ---- the rule as a shape of the text ----

  ghost predicate All(s: string, p: char -> bool) { forall i | 0 <= i < |s| :: p(s[i]) }

  /** `s` is blanks, a separator, blanks, quotes, a value without blanks or delimiters, and a rest that ends it. */
  ghost predicate Shaped(s: string, blanks: string, sep: string, blanks': string, quotes: string, value: string, rest: string) {
    && s == blanks + (sep + (blanks' + (quotes + (value + rest))))
    && All(blanks, Whitespace) && All(blanks', Whitespace) && All(quotes, Quote)
    && (sep == ":=" || sep == "=" || (sep == ":" && !("=" <= blanks' + (quotes + (value + rest)))))
    && (forall i | 0 <= i < |value| :: !EndsToken(value[i])) && (rest == [] || EndsToken(rest[0]))
    && Utf8Len(value) >= 20 && (exists k | 0 <= k < |value| :: Alphanumeric(value[k]))
  }

  ghost predicate HasShape(s: string) { exists b, sep, b', q, v, r :: Shaped(s, b, sep, b', q, v, r) }

  lemma {:induction false} DropWhileSplits(s: string, p: char -> bool) returns (front: string)
    ensures s == front + DropWhile(s, p) && All(front, p)
    ensures DropWhile(s, p) == [] || !p(DropWhile(s, p)[0])
  {
    if s != [] && p(s[0]) {
      var later := DropWhileSplits(s[1..], p);
      front := [s[0]] + later;
      assert s == [s[0]] + s[1..];
    } else {
      front := [];
      assert [] + s == s;
    }
  }

  lemma {:induction false} DropWhileDrops(front: string, s: string, p: char -> bool)
    requires All(front, p) && (s == [] || !p(s[0]))
    ensures DropWhile(front + s, p) == s
  {
    if front == [] {
      assert front + s == s;
    } else {
      assert (front + s)[1..] == front[1..] + s;
      DropWhileDrops(front[1..], s, p);
    }
  }

  lemma {:induction false} TakeUntilSplits(s: string, p: char -> bool) returns (rest: string)
    ensures s == TakeUntil(s, p) + rest && (rest == [] || p(rest[0]))
    ensures forall i | 0 <= i < |TakeUntil(s, p)| :: !p(TakeUntil(s, p)[i])
  {
    if s == [] || p(s[0]) {
      rest := s;
      assert [] + s == s;
    } else {
      rest := TakeUntilSplits(s[1..], p);
      assert s == [s[0]] + s[1..];
    }
  }

  lemma {:induction false} TakeUntilTakes(value: string, rest: string, p: char -> bool)
    requires (forall i | 0 <= i < |value| :: !p(value[i])) && (rest == [] || p(rest[0]))
    ensures TakeUntil(value + rest, p) == value
  {
    if value == [] {
      assert value + rest == rest;
    } else {
      assert (value + rest)[1..] == value[1..] + rest;
      TakeUntilTakes(value[1..], rest, p);
    }
  }

  lemma SeparatorSplits(s: string) returns (sep: string)
    requires SeparatorLen(s) > 0
    ensures s == sep + s[SeparatorLen(s)..]
    ensures sep == ":=" || sep == "=" || (sep == ":" && !("=" <= s[SeparatorLen(s)..]))
  {
    sep := s[..SeparatorLen(s)];
    assert |s| >= 2 ==> s[1] == s[1..][0];
  }

  lemma SeparatorFound(sep: string, after: string)
    requires sep == ":=" || sep == "=" || (sep == ":" && !("=" <= after))
    ensures SeparatorLen(sep + after) == |sep| && (sep + after)[|sep|..] == after && !Whitespace((sep + after)[0])
  {
    var s := sep + after;
    assert s[0] == sep[0] && s[..|sep|] == sep;
    assert sep == ":=" ==> ":=" <= s;
    assert sep == ":" && |s| >= 2 ==> s[1] == after[0];
    assert ":=" <= s ==> s[0] == ':' && s[1] == '=';
    assert |after| >= 1 && after[0] == '=' ==> "=" <= after;
  }

  /** The keyword's right-hand side qualifies exactly when it has that shape. */
  lemma QualifiesIffShaped(s: string, kw: string, i: nat)
    requires i + |kw| <= |s|
    ensures Qualifies(s, kw, i) <==>
              (i == 0 || !IdentChar(s[i - 1]))
              && HasShape(s[i + |kw|..])
  {
    var after := s[i + |kw|..];
    if Qualifies(s, kw, i) {
      QualifiedIsShaped(after);
    }
    if HasShape(after) {
      var b, sep, b', q, v, r :| Shaped(after, b, sep, b', q, v, r);
      ShapedQualifies(after, b, sep, b', q, v, r);
    }
  }

  ghost predicate GoodValue(rest: string) {
    SeparatorLen(rest) > 0 && Utf8Len(ValueToken(rest)) >= 20
    && exists k | 0 <= k < |ValueToken(rest)| :: Alphanumeric(ValueToken(rest)[k])
  }

  lemma QualifiedIsShaped(after: string)
    requires GoodValue(DropWhile(after, Whitespace))
    ensures HasShape(after)
  {
    hide Whitespace, Quote, EndsToken, Alphanumeric, Utf8Len, DropWhile, TakeUntil;
    var rest := DropWhile(after, Whitespace);
    var b := DropWhileSplits(after, Whitespace);
    var sep := SeparatorSplits(rest);
    var s1 := rest[SeparatorLen(rest)..];
    var b' := DropWhileSplits(s1, Whitespace);
    var s2 := DropWhile(s1, Whitespace);
    var q := DropWhileSplits(s2, Quote);
    var s3 := DropWhile(s2, Quote);
    var r := TakeUntilSplits(s3, EndsToken);
    assert Shaped(after, b, sep, b', q, ValueToken(rest), r);
  }

  lemma ShapedQualifies(after: string, b: string, sep: string, b': string, q: string, v: string, r: string)
    requires Shaped(after, b, sep, b', q, v, r)
    ensures GoodValue(DropWhile(after, Whitespace))
  {
    assert v != [] && !EndsToken(v[0]);
    assert !Whitespace(v[0]) && !Quote(v[0]);
    var s3 := v + r;
    var s2 := q + s3;
    var s1 := b' + s2;
    SeparatorFound(sep, s1);
    assert s2[0] == if q == [] then v[0] else q[0];
    QuoteIsNotBlank();
    hide Whitespace, Quote, EndsToken, Alphanumeric, Utf8Len, DropWhile, TakeUntil, SeparatorLen;
    DropWhileDrops(b, sep + s1, Whitespace);
    DropWhileDrops(b', s2, Whitespace);
    DropWhileDrops(q, s3, Quote);
    TakeUntilTakes(v, r, EndsToken);
  }

  lemma QuoteIsNotBlank()
    ensures forall c :: Quote(c) ==> !Whitespace(c)
  {
  }

  // ---- why skipping past a match is safe ----

  /** The first letter does not come back, so no two occurrences overlap. */
  predicate FirstLetterUnique(kw: string) {
    kw != [] && forall d | 0 < d < |kw| :: kw[d] != kw[0]
  }

  lemma KeywordsDoNotOverlap()
    ensures forall i | 0 <= i < |KEYWORDS| :: FirstLetterUnique(KEYWORDS[i])
  {
    assert FirstLetterUnique("password") && FirstLetterUnique("passwd") && FirstLetterUnique("secret");
    assert FirstLetterUnique("token") && FirstLetterUnique("api_key") && FirstLetterUnique("apikey");
    assert FirstLetterUnique("access_token") && FirstLetterUnique("auth_token") && FirstLetterUnique("private_key");
  }

  lemma OccurrencesAreApart(s: string, kw: string, i: nat, j: nat)
    requires FirstLetterUnique(kw) && Occurs(s, kw, i) && i < j < i + |kw|
    ensures !Occurs(s, kw, j)
  {
    assert s[i..i + |kw|][j - i] == kw[j - i];
  }

  // ---- the scan ----

  /** `str::find` from an offset: the first occurrence at or after it. */
  method Find(s: string, kw: string, offset: nat) returns (found: bool, at: nat)
    requires kw != [] && offset <= |s|
    ensures found ==> offset <= at && Occurs(s, kw, at)
    ensures forall i | offset <= i < (if found then at else |s|) :: !Occurs(s, kw, i)
  {
    at := offset;
    while at + |kw| <= |s|
      invariant offset <= at
      invariant forall i | offset <= i < at :: !Occurs(s, kw, i)
    {
      if s[at..at + |kw|] == kw {
        return true, at;
      }
      at := at + 1;
    }
    return false, at;
  }

  /** Whether a token holds a letter or digit. */
  method AnyAlphanumeric(token: string) returns (r: bool)
    ensures r <==> exists k | 0 <= k < |token| :: Alphanumeric(token[k])
  {
    for k := 0 to |token|
      invariant forall j | 0 <= j < k :: !Alphanumeric(token[j])
    {
      if Alphanumeric(token[k]) {
        return true;
      }
    }
    return false;
  }

  /** The look-ahead at one occurrence. */
  method Inspect(s: string, kw: string, i: nat) returns (r: bool)
    requires i + |kw| <= |s|
    ensures r <==> Qualifies(s, kw, i)
  {
    hide Utf8Len, DropWhile, TakeUntil, IdentChar, Alphanumeric;
    if i > 0 && IdentChar(s[i - 1]) {
      return false;
    }
    var remainder := DropWhile(s[i + |kw|..], Whitespace);
    var sepLen := SeparatorLen(remainder);
    if sepLen == 0 {
      return false;
    }
    var token := ValueToken(remainder);
    if Utf8Len(token) < 20 {
      return false;
    }
    r := AnyAlphanumeric(token);
  }

  method ScanKeyword(s: string, kw: string) returns (r: bool)
    requires FirstLetterUnique(kw)
    ensures r <==> HasAssignment(s, kw)
  {
    hide Qualifies, Occurs;
    var offset: nat := 0;
    while true
      invariant offset <= |s|
      invariant forall i: nat | i < offset :: !AssignmentAt(s, kw, i)
      decreases |s| - offset
    {
      var found, start := Find(s, kw, offset);
      if !found {
        NoRoomBehind(s, kw);
        return false;
      }
      OccursFits(s, kw, start);
      var qualifies := Inspect(s, kw, start);
      if qualifies {
        assert AssignmentAt(s, kw, start);
        return true;
      }
      forall i | offset <= i < start + |kw| ensures !AssignmentAt(s, kw, i) {
        if start < i {
          OccurrencesAreApart(s, kw, start, i);
        }
      }
      offset := start + |kw|;
    }
  }

  lemma OccursFits(s: string, kw: string, i: nat)
    requires Occurs(s, kw, i)
    ensures i + |kw| <= |s|
  {
  }

  lemma NoRoomBehind(s: string, kw: string)
    requires kw != []
    ensures forall i: nat | i >= |s| :: !Occurs(s, kw, i)
  {
  }

  /** The scan finds an assignment exactly when some keyword occurs as one anywhere. */
  method DetectCredentialAssignment(s: string) returns (r: bool)
    ensures r <==> exists k | 0 <= k < |KEYWORDS| :: HasAssignment(Lowered(s), KEYWORDS[k])
  {
    hide HasAssignment, Lowered;
    KeywordsDoNotOverlap();
    var lower := Lowered(s);
    for k := 0 to |KEYWORDS|
      invariant forall j | 0 <= j < k :: !HasAssignment(lower, KEYWORDS[j])
    {
      var found := ScanKeyword(lower, KEYWORDS[k]);
      if found {
        return true;
      }
    }
    return false;
  }

  // ---- hex runs ----

  predicate HexDigit(c: char) { '0' <= c <= '9' || 'a' <= c <= 'f' || 'A' <= c <= 'F' }

  predicate HexRun(s: string, start: nat, length: nat) {
    start + length <= |s| && forall i | start <= i < start + length :: HexDigit(s[i])
  }

  ghost predicate HasHexRun(s: string, length: nat) { exists start: nat :: HexRun(s, start, length) }

  /** Finds a run of `minLen` hex digits; a minimum of 0 still asks for one digit. */
  method DetectLongHexRun(s: string, minLen: nat) returns (r: bool)
    ensures r <==> HasHexRun(s, if minLen == 0 then 1 else minLen)
  {
    var needed := if minLen == 0 then 1 else minLen;
    var current := 0;
    for n := 0 to |s|
      invariant current < needed && current <= n
      invariant HexRun(s, n - current, current)
      invariant current < n ==> !HexDigit(s[n - current - 1])
      invariant forall start: nat :: HexRun(s, start, needed) ==> start + needed > n
    {
      if HexDigit(s[n]) {
        current := current + 1;
        if current >= minLen {
          assert HexRun(s, n + 1 - current, needed);
          return true;
        }
      } else {
        current := 0;
      }
      forall start: nat | HexRun(s, start, needed) ensures start + needed > n + 1 {
        assert start + needed == n + 1 ==> start <= n;
      }
    }
    return false;
  }
}
