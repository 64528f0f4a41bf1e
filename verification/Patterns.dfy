/** The regular expressions of the source, with their meaning as languages, and that
    the predicates of this model are exactly those. */
module Patterns {
  import opened Basics
  import opened ControlObjects
  import opened Custody
  import Packet

  // ----- Regular expressions -----

  datatype Regex =
    | One(ranges: seq<(char, char)>)
    | Then(first: Regex, second: Regex)
    | Repeat(r: Regex, least: nat, most: Option<nat>)

  predicate InClass(c: char, ranges: seq<(char, char)>) {
    exists i :: 0 <= i < |ranges| && ranges[i].0 <= c <= ranges[i].1
  }

  /** The whole of `s` is a word of the language of `r`. */
  ghost predicate Matches(r: Regex, s: string)
    decreases r, 0, 0
  {
    match r
    case One(ranges) => |s| == 1 && InClass(s[0], ranges)
    case Then(first, second) => exists k :: 0 <= k <= |s| && Matches(first, s[..k]) && Matches(second, s[k..])
    case Repeat(x, least, most) => exists n: nat :: least <= n && (most.Some? ==> n <= most.value) && MatchesTimes(x, n, s)
  }

  ghost predicate MatchesTimes(r: Regex, n: nat, s: string)
    decreases r, 1, n
  {
    if n == 0 then s == ""
    else exists k :: 0 <= k <= |s| && Matches(r, s[..k]) && MatchesTimes(r, n - 1, s[k..])
  }

  ghost predicate AllIn(s: string, ranges: seq<(char, char)>) {
    forall i :: 0 <= i < |s| ==> InClass(s[i], ranges)
  }

  lemma {:induction false} TimesIff(ranges: seq<(char, char)>, n: nat, s: string)
    ensures MatchesTimes(One(ranges), n, s) <==> |s| == n && AllIn(s, ranges)
    decreases n
  {
    hide InClass;
    if n == 0 {
    } else {
      if |s| >= 1 {
        TimesIff(ranges, n - 1, s[1..]);
      }
      if |s| == n && AllIn(s, ranges) {
        assert Matches(One(ranges), s[..1]) && MatchesTimes(One(ranges), n - 1, s[1..]);
      }
    }
  }

  lemma RepeatIff(ranges: seq<(char, char)>, least: nat, most: Option<nat>, s: string)
    ensures Matches(Repeat(One(ranges), least, most), s)
            <==> least <= |s| && (most.Some? ==> |s| <= most.value) && AllIn(s, ranges)
  {
    hide InClass, AllIn;
    forall n: nat ensures MatchesTimes(One(ranges), n, s) <==> |s| == n && AllIn(s, ranges) {
      TimesIff(ranges, n, s);
    }
    if least <= |s| && (most.Some? ==> |s| <= most.value) && AllIn(s, ranges) {
      assert MatchesTimes(One(ranges), |s|, s);
    }
  }

  lemma HeadIff(ranges: seq<(char, char)>, rest: Regex, s: string)
    ensures Matches(Then(One(ranges), rest), s) <==> s != "" && InClass(s[0], ranges) && Matches(rest, s[1..])
  {
    hide InClass;
    if s != "" && InClass(s[0], ranges) && Matches(rest, s[1..]) {
      assert Matches(One(ranges), s[..1]);
    }
  }

  function Just(c: char): seq<(char, char)> {
    [(c, c)]
  }

  // ----- The patterns -----

  const HEX := [('0', '9'), ('a', 'f')]
  const BASE32 := [('a', 'z'), ('2', '7')]
  const WORD := [('A', 'Z'), ('a', 'z'), ('0', '9')]

  const HEX_ID := Repeat(One(HEX), 32, Some(32))

  function IdPattern(a: char, b: char): Regex {
    Then(One(Just(a)), Then(One(Just(b)), Then(One(Just('1')), Repeat(One(BASE32), 32, Some(32)))))
  }

  const NONCE := Repeat(One(WORD + Just('_') + Just('-')), 16, Some(128))
  const OPAQUE := Repeat(One(WORD + Just('_') + Just('-')), 1, Some(128))

  const TOKEN :=
    Then(One(WORD),
         Repeat(One(WORD + Just('.') + Just('_') + Just('+') + Just(':') + Just('/') + Just('-')), 0, Some(95)))

  const KIND := Then(One([('a', 'z')]), Repeat(One([('a', 'z'), ('0', '9'), ('_', '_'), ('.', '.'), ('-', '-')]), 0, Some(63)))

  /** The punctuation of a path. */
  const MARKS := "._~!$&'()*+,;=:@%/-"

  const PATH := Then(One(Just('/')), Repeat(One(WORD + Each(MARKS)), 1, Some(511)))

  const ALNUM := [('a', 'z'), ('0', '9')]
  const SEPARATOR := [('.', '.'), ('_', '_'), ('-', '-')]
  const TAILS := Repeat(Then(One(SEPARATOR), Repeat(One(ALNUM), 1, None)), 0, None)
  const CAPABILITY := Then(One([('a', 'z')]), Then(Repeat(One(ALNUM), 0, None), TAILS))

  lemma HexIdIff(s: string)
    ensures IsHexId(s) <==> Matches(HEX_ID, s)
  {
    RepeatIff(HEX, 32, Some(32), s);
    forall i | 0 <= i < |s| ensures IsLowerHex(s[i]) <==> InClass(s[i], HEX) {
      InTwo(s[i], HEX);
    }
    hide InClass, Matches;
  }

  lemma InTwo(c: char, ranges: seq<(char, char)>)
    requires |ranges| == 2
    ensures InClass(c, ranges) <==> ranges[0].0 <= c <= ranges[0].1 || ranges[1].0 <= c <= ranges[1].1
  {
    if ranges[0].0 <= c <= ranges[0].1 {
      assert InClass(c, ranges);
    }
  }

  lemma InJust(c: char, d: char)
    ensures InClass(c, Just(d)) <==> c == d
  {
    assert Just(d)[0] == (d, d);
  }

  lemma IdIff(s: string, a: char, b: char)
    ensures HasIdShape(s, [a, b, '1']) <==> Matches(IdPattern(a, b), s)
  {
    var tail := Repeat(One(BASE32), 32, Some(32));
    HeadIff(Just(a), Then(One(Just(b)), Then(One(Just('1')), tail)), s);
    if |s| >= 1 {
      InJust(s[0], a);
      HeadIff(Just(b), Then(One(Just('1')), tail), s[1..]);
    }
    if |s| >= 2 {
      InJust(s[1], b);
      HeadIff(Just('1'), tail, s[1..][1..]);
    }
    if |s| >= 3 {
      InJust(s[2], '1');
      assert s[1..][1..][1..] == s[3..];
      RepeatIff(BASE32, 32, Some(32), s[3..]);
      forall i | 3 <= i < |s| ensures IsBase32(s[i]) <==> InClass(s[i], BASE32) {
        InTwo(s[i], BASE32);
      }
      assert forall i :: 3 <= i < |s| ==> s[3..][i - 3] == s[i];
      assert [a, b, '1'] <= s <==> s[0] == a && s[1] == b && s[2] == '1';
    }
    hide InClass, Matches;
  }

  lemma OpaqueCharIff(c: char)
    ensures IsOpaqueChar(c) <==> InClass(c, WORD + Just('_') + Just('-'))
  {
    var ranges := WORD + Just('_') + Just('-');
    assert ranges[0] == ('A', 'Z') && ranges[1] == ('a', 'z') && ranges[2] == ('0', '9') && ranges[3] == ('_', '_') && ranges[4] == ('-', '-');
  }

  lemma OpaqueIff(s: string)
    ensures NonceOk(s) <==> Matches(NONCE, s)
    ensures IsOpaque(s) <==> Matches(OPAQUE, s)
  {
    var ranges := WORD + Just('_') + Just('-');
    RepeatIff(ranges, 16, Some(128), s);
    RepeatIff(ranges, 1, Some(128), s);
    forall i | 0 <= i < |s| ensures IsOpaqueChar(s[i]) <==> InClass(s[i], ranges) {
      OpaqueCharIff(s[i]);
    }
    hide InClass, Matches, IsOpaqueChar;
  }

  lemma WordIff(c: char)
    ensures IsWordChar(c) <==> InClass(c, WORD)
  {
    assert WORD[0] == ('A', 'Z') && WORD[1] == ('a', 'z') && WORD[2] == ('0', '9');
  }

  lemma TokenCharIff(c: char)
    ensures IsTokenChar(c) <==> InClass(c, WORD + Just('.') + Just('_') + Just('+') + Just(':') + Just('/') + Just('-'))
  {
    var ranges := WORD + Just('.') + Just('_') + Just('+') + Just(':') + Just('/') + Just('-');
    assert ranges[0] == ('A', 'Z') && ranges[1] == ('a', 'z') && ranges[2] == ('0', '9') && ranges[3] == ('.', '.') && ranges[4] == ('_', '_');
    assert ranges[5] == ('+', '+') && ranges[6] == (':', ':') && ranges[7] == ('/', '/') && ranges[8] == ('-', '-');
  }

  lemma TokenIff(s: string)
    ensures IsToken(s) <==> Matches(TOKEN, s)
  {
    var ranges := WORD + Just('.') + Just('_') + Just('+') + Just(':') + Just('/') + Just('-');
    HeadIff(WORD, Repeat(One(ranges), 0, Some(95)), s);
    if s != "" {
      RepeatIff(ranges, 0, Some(95), s[1..]);
      WordIff(s[0]);
      assert IsWordChar(s[0]) ==> IsTokenChar(s[0]);
      forall i | 0 <= i < |s| ensures IsTokenChar(s[i]) <==> InClass(s[i], ranges) {
        TokenCharIff(s[i]);
      }
      assert forall i :: 1 <= i < |s| ==> s[1..][i - 1] == s[i];
    }
    hide InClass, Matches, IsTokenChar, IsWordChar;
  }

  lemma KindCharIff(c: char)
    ensures Packet.IsKindChar(c) <==> InClass(c, [('a', 'z'), ('0', '9'), ('_', '_'), ('.', '.'), ('-', '-')])
  {
    var ranges := [('a', 'z'), ('0', '9'), ('_', '_'), ('.', '.'), ('-', '-')];
    assert ranges[0] == ('a', 'z') && ranges[1] == ('0', '9') && ranges[2] == ('_', '_') && ranges[3] == ('.', '.') && ranges[4] == ('-', '-');
  }

  lemma KindNameIff(s: string)
    ensures Packet.IsKindName(s) <==> Matches(KIND, s)
  {
    var ranges := [('a', 'z'), ('0', '9'), ('_', '_'), ('.', '.'), ('-', '-')];
    HeadIff([('a', 'z')], Repeat(One(ranges), 0, Some(63)), s);
    if s != "" {
      RepeatIff(ranges, 0, Some(63), s[1..]);
      assert [('a', 'z')][0] == ('a', 'z');
      assert InClass(s[0], [('a', 'z')]) <==> 'a' <= s[0] <= 'z';
      forall i | 0 <= i < |s| ensures Packet.IsKindChar(s[i]) <==> InClass(s[i], ranges) {
        KindCharIff(s[i]);
      }
      assert forall i :: 1 <= i < |s| ==> s[1..][i - 1] == s[i];
    }
    hide InClass, Matches;
  }

  /** The kind is matched up to the end or up to a final newline. */
  lemma KindIff(s: string)
    ensures Packet.KindMatches(s) <==> Matches(KIND, s) || exists t :: s == t + "\n" && Matches(KIND, t)
  {
    hide Matches, Packet.IsKindName;
    KindNameIff(s);
    if s != "" && s[|s| - 1] == '\n' {
      KindNameIff(s[..|s| - 1]);
      assert s == s[..|s| - 1] + "\n";
    }
    if t :| s == t + "\n" && Matches(KIND, t) {
      assert s[..|s| - 1] == t;
      KindNameIff(t);
    }
  }

  function Each(marks: string): seq<(char, char)> {
    seq(|marks|, i requires 0 <= i < |marks| => (marks[i], marks[i]))
  }

  lemma EachIff(c: char, marks: string)
    ensures InClass(c, Each(marks)) <==> c in marks
  {
    if c in marks {
      var i :| 0 <= i < |marks| && marks[i] == c;
      assert Each(marks)[i] == (c, c);
    }
  }

  lemma EitherIff(c: char, x: seq<(char, char)>, y: seq<(char, char)>)
    ensures InClass(c, x + y) <==> InClass(c, x) || InClass(c, y)
  {
    if InClass(c, x) {
      var i :| 0 <= i < |x| && x[i].0 <= c <= x[i].1;
      assert (x + y)[i] == x[i];
    }
    if InClass(c, y) {
      var i :| 0 <= i < |y| && y[i].0 <= c <= y[i].1;
      assert (x + y)[|x| + i] == y[i];
    }
  }

  lemma PathCharIff(c: char)
    ensures IsPathChar(c) <==> InClass(c, WORD + Each(MARKS))
  {
    WordIff(c);
    EachIff(c, MARKS);
    EitherIff(c, WORD, Each(MARKS));
    hide InClass, IsWordChar, Each;
  }

  ghost predicate HasPair(s: string, c: char) {
    exists i :: 0 <= i < |s| - 1 && s[i] == c && s[i + 1] == c
  }

  lemma {:induction false} ContainsIff(s: string, c: char)
    ensures Contains(s, [c, c]) <==> HasPair(s, c)
  {
    if s == "" {
    } else {
      ContainsIff(s[1..], c);
      assert [c, c] <= s <==> |s| >= 2 && s[0] == c && s[1] == c;
      if HasPair(s[1..], c) {
        var i :| 0 <= i < |s[1..]| - 1 && s[1..][i] == c && s[1..][i + 1] == c;
        assert s[i + 1] == c && s[i + 1 + 1] == c;
      }
      if HasPair(s, c) && !([c, c] <= s) {
        var i :| 0 <= i < |s| - 1 && s[i] == c && s[i + 1] == c;
        assert s[1..][i - 1] == c && s[1..][i - 1 + 1] == c;
      }
    }
  }

  lemma PathIff(s: string)
    ensures PathOk(s) <==> Matches(PATH, s) && !HasPair(s, '/') && !HasPair(s, '.')
  {
    var ranges := WORD + Each(MARKS);
    ContainsIff(s, '/');
    ContainsIff(s, '.');
    assert "//" == ['/', '/'] && ".." == ['.', '.'];
    HeadIff(Just('/'), Repeat(One(ranges), 1, Some(511)), s);
    if s != "" {
      InJust(s[0], '/');
      RepeatIff(ranges, 1, Some(511), s[1..]);
      forall i | 0 <= i < |s| ensures IsPathChar(s[i]) <==> InClass(s[i], ranges) {
        PathCharIff(s[i]);
      }
      assert forall i :: 1 <= i < |s| ==> s[1..][i - 1] == s[i];
    }
    hide InClass, Matches, IsPathChar, Contains, HasPair;
  }

  // ----- Capabilities: words joined by single separators -----

  lemma AlnumIff(c: char)
    ensures InClass(c, ALNUM) <==> IsLowerLetter(c) || IsDigit(c)
    ensures InClass(c, SEPARATOR) <==> IsSeparator(c)
  {
    InTwo(c, ALNUM);
    assert SEPARATOR[0] == ('.', '.') && SEPARATOR[1] == ('_', '_') && SEPARATOR[2] == ('-', '-');
  }

  /** Words and separators alternate to the end. */
  ghost predicate IsTail(s: string) {
    && (forall i :: 0 <= i < |s| ==> IsLowerLetter(s[i]) || IsDigit(s[i]) || IsSeparator(s[i]))
    && (s != "" ==> IsSeparator(s[0]) && !IsSeparator(s[|s| - 1]))
    && (forall i :: 0 <= i < |s| - 1 ==> !(IsSeparator(s[i]) && IsSeparator(s[i + 1])))
  }

  const WORDS := Repeat(One(ALNUM), 1, None)
  const PART := Then(One(SEPARATOR), WORDS)

  lemma PartIff(s: string)
    ensures Matches(PART, s) <==> |s| >= 2 && IsSeparator(s[0]) && forall i :: 1 <= i < |s| ==> IsLowerLetter(s[i]) || IsDigit(s[i])
  {
    HeadIff(SEPARATOR, WORDS, s);
    if s != "" {
      AlnumIff(s[0]);
      RepeatIff(ALNUM, 1, None, s[1..]);
      forall i | 0 <= i < |s| ensures InClass(s[i], ALNUM) <==> IsLowerLetter(s[i]) || IsDigit(s[i]) {
        AlnumIff(s[i]);
      }
      assert forall i :: 1 <= i < |s| ==> s[1..][i - 1] == s[i];
    }
    hide InClass, Matches;
  }

  /** Parts one after another make a tail. */
  lemma {:induction false} PartsMakeTail(n: nat, s: string)
    requires MatchesTimes(PART, n, s)
    ensures IsTail(s)
    decreases n
  {
    hide Matches, IsLowerLetter, IsDigit;
    if n == 0 {
    } else {
      var k :| 0 <= k <= |s| && Matches(PART, s[..k]) && MatchesTimes(PART, n - 1, s[k..]);
      PartIff(s[..k]);
      PartsMakeTail(n - 1, s[k..]);
      JoinTail(s, k);
    }
  }

  lemma JoinTail(s: string, k: nat)
    requires 2 <= k <= |s| && IsSeparator(s[0]) && IsTail(s[k..])
    requires forall i :: 1 <= i < k ==> IsLowerLetter(s[..k][i]) || IsDigit(s[..k][i])
    ensures IsTail(s)
  {
    assert forall i :: k <= i < |s| ==> s[k..][i - k] == s[i];
    assert forall i :: 0 <= i < k ==> s[..k][i] == s[i];
    forall i | 0 <= i < |s| ensures IsLowerLetter(s[i]) || IsDigit(s[i]) || IsSeparator(s[i]) {
      assert i >= k ==> s[k..][i - k] == s[i];
    }
    forall i | 0 <= i < |s| - 1 ensures !(IsSeparator(s[i]) && IsSeparator(s[i + 1])) {
      assert i >= k ==> s[k..][i - k] == s[i] && s[k..][i - k + 1] == s[i + 1];
    }
    if k < |s| {
      assert s[k..][|s[k..]| - 1] == s[|s| - 1];
    }
  }

  /** And every tail is made of parts. */
  lemma {:induction false} TailIsParts(s: string) returns (n: nat)
    requires IsTail(s)
    ensures MatchesTimes(PART, n, s)
    decreases |s|
  {
    if s == "" {
      n := 0;
    } else {
      var k := NextSeparator(s);
      PartIff(s[..k]);
      RestIsTail(s, k);
      hide Matches, IsTail;
      var m := TailIsParts(s[k..]);
      n := m + 1;
    }
  }

  /** Where the first part ends. */
  lemma NextSeparator(s: string) returns (k: nat)
    requires s != "" && IsTail(s)
    ensures 2 <= k <= |s| && (k < |s| ==> IsSeparator(s[k]))
    ensures forall i :: 1 <= i < k ==> IsLowerLetter(s[i]) || IsDigit(s[i])
  {
    assert |s| >= 2;
    assert !IsSeparator(s[1]) by {
      assert !(IsSeparator(s[0]) && IsSeparator(s[0 + 1]));
    }
    k := 2;
    while k < |s| && !IsSeparator(s[k])
      invariant 2 <= k <= |s|
      invariant forall i :: 1 <= i < k ==> IsLowerLetter(s[i]) || IsDigit(s[i])
    {
      k := k + 1;
    }
  }

  lemma RestIsTail(s: string, k: nat)
    requires IsTail(s) && 2 <= k <= |s| && (k < |s| ==> IsSeparator(s[k]))
    ensures IsTail(s[k..])
  {
    var rest := s[k..];
    assert forall i :: 0 <= i < |rest| ==> rest[i] == s[k + i];
    forall i | 0 <= i < |rest| - 1 ensures !(IsSeparator(rest[i]) && IsSeparator(rest[i + 1])) {
      assert !(IsSeparator(s[k + i]) && IsSeparator(s[k + i + 1]));
    }
  }

  lemma TailIff(s: string)
    ensures Matches(TAILS, s) <==> IsTail(s)
  {
    assert TAILS == Repeat(PART, 0, None);
    if Matches(TAILS, s) {
      var n: nat :| MatchesTimes(PART, n, s);
      PartsMakeTail(n, s);
    }
    if IsTail(s) {
      var n := TailIsParts(s);
    }
  }

  /** A letter, letters and digits, then a tail. */
  lemma CapabilityIff(s: string)
    ensures IsCapability(s) <==> Matches(CAPABILITY, s)
  {
    HeadIff([('a', 'z')], Then(Repeat(One(ALNUM), 0, None), TAILS), s);
    if s != "" {
      assert [('a', 'z')][0] == ('a', 'z');
      assert InClass(s[0], [('a', 'z')]) <==> IsLowerLetter(s[0]);
      if IsLowerLetter(s[0]) {
        WordThenTailIff(s);
      }
    }
    hide Matches, InClass;
  }

  lemma WordThenTailIff(s: string)
    requires s != "" && IsLowerLetter(s[0])
    ensures IsCapability(s) <==> Matches(Then(Repeat(One(ALNUM), 0, None), TAILS), s[1..])
  {
    hide IsCapability, IsTail, IsLowerLetter, IsDigit;
    var rest := s[1..];
    if IsCapability(s) {
      var k := WordEnd(s);
      CapabilityTail(s, k);
      assert rest[..k - 1] == s[1..k] && rest[k - 1..] == s[k..];
      LettersIff(s[1..k]);
      TailIff(s[k..]);
    }
    if Matches(Then(Repeat(One(ALNUM), 0, None), TAILS), rest) {
      var k :| 0 <= k <= |rest| && Matches(Repeat(One(ALNUM), 0, None), rest[..k]) && Matches(TAILS, rest[k..]);
      assert rest[..k] == s[1..k + 1] && rest[k..] == s[k + 1..];
      LettersIff(s[1..k + 1]);
      TailIff(s[k + 1..]);
      TailMakesCapability(s, k + 1);
    }
  }

  ghost predicate AreLetters(s: string) {
    forall i :: 0 <= i < |s| ==> IsLowerLetter(s[i]) || IsDigit(s[i])
  }

  lemma LettersIff(s: string)
    ensures Matches(Repeat(One(ALNUM), 0, None), s) <==> AreLetters(s)
  {
    RepeatIff(ALNUM, 0, None, s);
    forall i | 0 <= i < |s| ensures InClass(s[i], ALNUM) <==> IsLowerLetter(s[i]) || IsDigit(s[i]) {
      AlnumIff(s[i]);
    }
    hide InClass, Matches, IsLowerLetter, IsDigit;
  }

  lemma WordEnd(s: string) returns (k: nat)
    requires IsCapability(s)
    ensures 1 <= k <= |s| && (k < |s| ==> IsSeparator(s[k])) && AreLetters(s[1..k])
  {
    k := 1;
    while k < |s| && !IsSeparator(s[k])
      invariant 1 <= k <= |s|
      invariant forall i :: 1 <= i < k ==> IsLowerLetter(s[i]) || IsDigit(s[i])
    {
      k := k + 1;
    }
  }

  lemma CapabilityTail(s: string, k: nat)
    requires IsCapability(s) && 1 <= k <= |s| && (k < |s| ==> IsSeparator(s[k]))
    ensures IsTail(s[k..])
  {
    var rest := s[k..];
    assert forall i :: 0 <= i < |rest| ==> rest[i] == s[k + i];
    forall i | 0 <= i < |rest| - 1 ensures !(IsSeparator(rest[i]) && IsSeparator(rest[i + 1])) {
      assert !(IsSeparator(s[k + i]) && IsSeparator(s[k + i + 1]));
    }
  }

  lemma TailMakesCapability(s: string, k: nat)
    requires 1 <= k <= |s| && IsLowerLetter(s[0]) && IsTail(s[k..]) && AreLetters(s[1..k])
    ensures IsCapability(s)
  {
    assert forall i :: 1 <= i < k ==> s[1..k][i - 1] == s[i];
    forall i | 0 <= i < |s| ensures IsLowerLetter(s[i]) || IsDigit(s[i]) || IsSeparator(s[i]) {
      assert i >= k ==> s[k..][i - k] == s[i];
    }
    forall i | 0 <= i < |s| - 1 ensures !(IsSeparator(s[i]) && IsSeparator(s[i + 1])) {
      assert i >= k ==> s[k..][i - k] == s[i] && s[k..][i - k + 1] == s[i + 1];
    }
    if k < |s| {
      assert s[k..][|s[k..]| - 1] == s[|s| - 1];
    }
  }
}
