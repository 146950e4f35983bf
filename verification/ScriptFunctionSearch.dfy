/** The Squirrel function-header scanner of src/engine/mcp_script_function_search.cpp. */
module ScriptFunctionSearch {
  import opened Bytes

  const KEYWORD := "function"

  // The character classes of the C locale

  predicate IsSpace(c: char) {
    c == ' ' || '\t' <= c <= '\r'
  }

  predicate IsIdentifierStart(c: char) {
    c == '_' || 'a' <= c <= 'z' || 'A' <= c <= 'Z'
  }

  predicate IsIdentifier(c: char) {
    IsIdentifierStart(c) || '0' <= c <= '9'
  }

  // They are these characters.
  lemma CharacterClasses(c: char)
    ensures IsSpace(c) <==> c in [' ', '\t', '\n', 11 as char, 12 as char, '\r']
    ensures IsIdentifierStart(c) <==> c == '_' || 65 <= c as int <= 90 || 97 <= c as int <= 122
    ensures IsIdentifier(c) <==> IsIdentifierStart(c) || 48 <= c as int <= 57
  {
  }

  // A whole-word keyword

  predicate KeywordAt(text: string, p: nat) {
    p + |KEYWORD| <= |text| && text[p..p + |KEYWORD|] == KEYWORD
  }

  predicate WholeWordAt(text: string, p: nat) {
    && KeywordAt(text, p)
    && (p > 0 ==> !IsIdentifier(text[p - 1]))
    && (p + |KEYWORD| < |text| ==> !IsIdentifier(text[p + |KEYWORD|]))
  }

  // White space

  function SkipSpace(text: string, p: nat): (r: nat)
    requires p <= |text|
    ensures p <= r <= |text| && (r < |text| ==> !IsSpace(text[r]))
    ensures forall i | p <= i < r :: IsSpace(text[i])
    decreases |text| - p
  {
    if p < |text| && IsSpace(text[p]) then SkipSpace(text, p + 1) else p
  }

  predicate AllSpace(text: string, p: nat, q: nat)
    requires p <= q <= |text|
  {
    forall i | p <= i < q :: IsSpace(text[i])
  }

  lemma {:induction false} SkipSpaceUnique(text: string, p: nat, q: nat)
    requires p <= q <= |text| && AllSpace(text, p, q) && (q < |text| ==> !IsSpace(text[q]))
    ensures SkipSpace(text, p) == q
    decreases q - p
  {
    if p < q {
      SkipSpaceUnique(text, p + 1, q);
    }
  }

  // Names: identifier characters, dots and double colons, as far as they go

  predicate NameGoesOn(text: string, p: nat) {
    p < |text| && (IsIdentifier(text[p]) || text[p] == '.' || (p + 1 < |text| && text[p] == ':' && text[p + 1] == ':'))
  }

  predicate IsName(s: string) {
    s == [] || (if IsIdentifier(s[0]) || s[0] == '.' then IsName(s[1..])
                else |s| > 1 && s[0] == ':' && s[1] == ':' && IsName(s[2..]))
  }

  function NameEnd(text: string, p: nat): (r: nat)
    requires p <= |text|
    ensures p <= r <= |text|
    decreases |text| - p
  {
    if !NameGoesOn(text, p) then p
    else if IsIdentifier(text[p]) || text[p] == '.' then NameEnd(text, p + 1)
    else NameEnd(text, p + 2)
  }

  // The scanned name is the longest one, and nothing else is a name that does not go on.
  lemma {:induction false} NameEndIff(text: string, p: nat, q: nat)
    requires p <= q <= |text|
    ensures q == NameEnd(text, p) <==> IsName(text[p..q]) && !NameGoesOn(text, q)
    decreases |text| - p
  {
    if p < q {
      if IsIdentifier(text[p]) || text[p] == '.' {
        assert text[p..q][1..] == text[p + 1..q];
        NameEndIff(text, p + 1, q);
      } else if p + 2 <= q && text[p] == ':' && text[p + 1] == ':' {
        assert text[p..q][2..] == text[p + 2..q];
        NameEndIff(text, p + 2, q);
      }
    }
  }

  lemma {:induction false} NameCharacters(text: string, p: nat, i: nat)
    requires p <= |text| && p <= i < NameEnd(text, p)
    ensures IsIdentifier(text[i]) || text[i] == '.' || text[i] == ':'
    decreases |text| - p
  {
    if IsIdentifier(text[p]) || text[p] == '.' {
      if i > p {
        NameCharacters(text, p + 1, i);
      }
    } else if i > p + 1 {
      NameCharacters(text, p + 2, i);
    }
  }

  // Argument lists: parentheses count outside quotes; a backslash in quotes escapes

  datatype Lexer = Lexer(depth: int, quote: Option<char>, escaped: bool)

  const OPENED := Lexer(1, None, false)

  function LexStep(l: Lexer, c: char): Lexer {
    match l.quote
    case Some(q) =>
      if l.escaped then l.(escaped := false)
      else if c == '\\' then l.(escaped := true)
      else if c == q then l.(quote := None)
      else l
    case None =>
      if c == '\'' || c == '"' then l.(quote := Some(c))
      else if c == '(' then l.(depth := l.depth + 1)
      else if c == ')' then l.(depth := l.depth - 1)
      else l
  }

  // The lexer that was opened at `a`, after reading up to `p`.
  function LexAt(text: string, a: nat, p: nat): Lexer
    requires a <= p <= |text|
  {
    if p == a then OPENED else LexStep(LexAt(text, a, p - 1), text[p - 1])
  }

  // How many backslashes stand directly before p, from `start` on
  function Backslashes(text: string, start: nat, p: nat): nat
    requires start <= p <= |text|
  {
    if p == start || text[p - 1] != '\\' then 0 else 1 + Backslashes(text, start, p - 1)
  }

  // A quoted string ends at its quote after an even number of backslashes: up to there nothing in it counts, ...
  lemma {:induction false} QuotedStays(text: string, a: nat, start: nat, p: nat, depth: int, q: char)
    requires a <= start <= p <= |text| && q != '\\'
    requires LexAt(text, a, start) == Lexer(depth, Some(q), false)
    requires forall k | start <= k < p && text[k] == q :: Backslashes(text, start, k) % 2 == 1
    ensures LexAt(text, a, p) == Lexer(depth, Some(q), Backslashes(text, start, p) % 2 == 1)
    decreases p
  {
    if start < p {
      QuotedStays(text, a, start, p - 1, depth, q);
      var n := Backslashes(text, start, p - 1);
      if text[p - 1] == '\\' {
        assert Backslashes(text, start, p) == 1 + n;
        OneMoreIsOdd(n);
      } else {
        assert Backslashes(text, start, p) == 0;
      }
      hide Backslashes;
    }
  }

  lemma OneMoreIsOdd(n: nat)
    ensures (1 + n) % 2 == 1 <==> n % 2 != 1
  {
  }

  // ... and there it is over.
  lemma QuotedEnds(text: string, a: nat, start: nat, p: nat, depth: int, q: char)
    requires a <= start <= p < |text| && q != '\\'
    requires LexAt(text, a, start) == Lexer(depth, Some(q), false)
    requires forall k | start <= k < p && text[k] == q :: Backslashes(text, start, k) % 2 == 1
    requires text[p] == q && Backslashes(text, start, p) % 2 == 0
    ensures LexAt(text, a, p + 1) == Lexer(depth, None, false)
  {
    QuotedStays(text, a, start, p, depth, q);
  }

  function CountOf(text: string, c: char): nat {
    if text == "" then 0 else CountOf(text[..|text| - 1], c) + if text[|text| - 1] == c then 1 else 0
  }

  // Outside quotes parentheses count, a backslash is like any other character, and either quote begins a string.
  lemma {:induction false} UnquotedCounts(text: string, a: nat, start: nat, p: nat, depth: int)
    requires a <= start <= p <= |text|
    requires LexAt(text, a, start) == Lexer(depth, None, false)
    requires forall k | start <= k < p :: text[k] != '\'' && text[k] != '"'
    ensures LexAt(text, a, p)
         == Lexer(depth + CountOf(text[start..p], '(') - CountOf(text[start..p], ')'), None, false)
    ensures p < |text| && (text[p] == '\'' || text[p] == '"') ==>
              LexAt(text, a, p + 1) == LexAt(text, a, p).(quote := Some(text[p]))
    decreases p
  {
    if start < p {
      UnquotedCounts(text, a, start, p - 1, depth);
      assert text[start..p][..p - 1 - start] == text[start..p - 1];
    }
  }

  // Everything from a up to p is inside the argument list opened before a.
  predicate Inside(text: string, a: nat, p: nat) {
    a <= p <= |text| && forall j | a <= j <= p :: LexAt(text, a, j).depth > 0
  }

  // [a, e) is the text of a balanced argument list, closed at e.
  predicate Arguments(text: string, a: nat, e: nat) {
    e < |text| && Inside(text, a, e) && LexAt(text, a, e + 1).depth == 0
  }

  lemma ArgumentsUnique(text: string, a: nat, e: nat, e': nat)
    requires Arguments(text, a, e) && Arguments(text, a, e')
    ensures e == e'
  {
  }

  // Headers

  datatype Header = Header(
    keyword: nat, nameStart: nat, nameEnd: nat, argumentsStart: nat, argumentsEnd: nat, brace: nat, line: nat)

  function Newlines(s: string): nat {
    if s == [] then 0 else Newlines(s[..|s| - 1]) + if s[|s| - 1] == '\n' then 1 else 0
  }

  // Newlines add up, and only the character itself is one.
  lemma {:induction false} NewlinesAdd(s: string, t: string)
    ensures Newlines(s + t) == Newlines(s) + Newlines(t)
  {
    if t == [] {
      assert s + t == s;
    } else {
      assert (s + t)[..|s + t| - 1] == s + t[..|t| - 1];
      NewlinesAdd(s, t[..|t| - 1]);
    }
  }

  lemma NewlineIs(c: char)
    ensures Newlines([c]) == if c == '\n' then 1 else 0
  {
  }

  // function, a name, and an opening parenthesis right before argumentsStart
  predicate Opens(text: string, keyword: nat, nameStart: nat, nameEnd: nat, argumentsStart: nat) {
    && WholeWordAt(text, keyword)
    && keyword + |KEYWORD| <= nameStart <= nameEnd < argumentsStart <= |text|
    && AllSpace(text, keyword + |KEYWORD|, nameStart)
    && nameStart < |text| && IsIdentifierStart(text[nameStart])
    && IsName(text[nameStart..nameEnd]) && !NameGoesOn(text, nameEnd)
    && AllSpace(text, nameEnd, argumentsStart - 1) && text[argumentsStart - 1] == '('
  }

  predicate IsHeader(text: string, h: Header) {
    && Opens(text, h.keyword, h.nameStart, h.nameEnd, h.argumentsStart)
    && Arguments(text, h.argumentsStart, h.argumentsEnd)
    && h.argumentsEnd < h.brace < |text| && AllSpace(text, h.argumentsEnd + 1, h.brace) && text[h.brace] == '{'
    && h.line == 1 + Newlines(text[..h.nameStart])
  }

  lemma OpensUnique(text: string, k: nat, s: nat, e: nat, a: nat)
    requires Opens(text, k, s, e, a)
    ensures s == SkipSpace(text, k + |KEYWORD|) && e == NameEnd(text, s) && a == SkipSpace(text, e) + 1
  {
    SkipSpaceUnique(text, k + |KEYWORD|, s);
    NameEndIff(text, s, e);
    SkipSpaceUnique(text, e, a - 1);
  }

  // Where the parts of a written header stand, k being where it begins
  function HeaderAt(k: nat, name: nat, arguments: nat, line: nat): Header {
    Header(k, k + 9, k + 9 + name, k + 10 + name, k + 10 + name + arguments, k + 12 + name + arguments, line)
  }

  // A function written out is a header, whatever stands before and after it.
  lemma WrittenIsHeader(text: string, k: nat, name: string, arguments: string)
    requires k + 13 + |name| + |arguments| <= |text| && (k > 0 ==> !IsIdentifier(text[k - 1]))
    requires name != "" && IsIdentifierStart(name[0]) && forall c | c in name :: IsIdentifier(c)
    requires forall c | c in arguments :: c != '(' && c != ')' && c != '\'' && c != '"'
    requires text[k..k + 9] == "function " && text[k + 9..k + 9 + |name|] == name
    requires var a := k + 10 + |name|;
             && text[a - 1..a] == "(" && text[a..a + |arguments|] == arguments
             && text[a + |arguments|..a + |arguments| + 3] == ")\n{"
    ensures IsHeader(text, HeaderAt(k, |name|, |arguments|, 1 + Newlines(text[..k])))
  {
    var a := k + 10 + |name|;
    var z := a + |arguments|;
    assert text[a - 1] == text[a - 1..a][0] == '(';
    Closing(text, z);
    hide IsIdentifier, IsIdentifierStart, IsName, Newlines, LexAt;
    WrittenOpens(text, k, name);
    WrittenArguments(text, a, z);
    SameLine(text, k);
    hide Opens, Arguments;
  }

  lemma Closing(text: string, z: nat)
    requires z + 3 <= |text| && text[z..z + 3] == ")\n{"
    ensures text[z] == ')' && text[z + 1] == '\n' && text[z + 2] == '{'
  {
    var closing := ")\n{";
    assert closing[0] == ')' && closing[1] == '\n' && closing[2] == '{';
    assert text[z] == text[z..z + 3][0] && text[z + 1] == text[z..z + 3][1] && text[z + 2] == text[z..z + 3][2];
  }

  lemma SameLine(text: string, k: nat)
    requires k + 9 <= |text| && text[k..k + 9] == "function "
    ensures Newlines(text[..k + 9]) == Newlines(text[..k])
  {
    assert text[..k + 9] == text[..k] + text[k..k + 9];
    NewlinesAdd(text[..k], text[k..k + 9]);
    NoNewlines("function ");
  }

  lemma {:induction false} NoNewlines(s: string)
    requires '\n' !in s
    ensures Newlines(s) == 0
  {
    if s != "" {
      NoNewlines(s[..|s| - 1]);
    }
  }

  lemma {:induction false} OnlyIdentifiersIsName(s: string)
    requires forall c | c in s :: IsIdentifier(c)
    ensures IsName(s)
  {
    if s != [] {
      OnlyIdentifiersIsName(s[1..]);
    }
  }

  lemma WrittenOpens(text: string, k: nat, name: string)
    requires k + 9 + |name| < |text| && text[k..k + 9] == "function " && (k > 0 ==> !IsIdentifier(text[k - 1]))
    requires name != "" && IsIdentifierStart(name[0]) && forall c | c in name :: IsIdentifier(c)
    requires text[k + 9..k + 9 + |name|] == name && text[k + 9 + |name|] == '('
    ensures Opens(text, k, k + 9, k + 9 + |name|, k + 9 + |name| + 1)
  {
    assert text[k..k + 8] == text[k..k + 9][..8] == KEYWORD;
    assert text[k + 8] == text[k..k + 9][8] == ' ';
    assert text[k + 9] == text[k + 9..k + 9 + |name|][0];
    OnlyIdentifiersIsName(name);
  }

  lemma WrittenArguments(text: string, a: nat, z: nat)
    requires a <= z < |text| && text[z] == ')'
    requires forall c | c in text[a..z] :: c != '(' && c != ')' && c != '\'' && c != '"'
    ensures Arguments(text, a, z)
  {
    forall j | a <= j <= z ensures LexAt(text, a, j) == OPENED {
      forall k | a <= k < j ensures text[k] != '\'' && text[k] != '"' {
        assert text[k] == text[a..z][k - a] && text[a..z][k - a] in text[a..z];
      }
      UnquotedCounts(text, a, a, j, 1);
      assert forall c | c in text[a..j] :: c in text[a..z];
      CountNone(text[a..j], '(');
      CountNone(text[a..j], ')');
    }
  }

  lemma {:induction false} CountNone(text: string, c: char)
    requires c !in text
    ensures CountOf(text, c) == 0
  {
    if text != "" {
      CountNone(text[..|text| - 1], c);
    }
  }

  // A keyword begins at most one header.
  lemma HeaderUnique(text: string, g: Header, h: Header)
    requires IsHeader(text, g) && IsHeader(text, h) && g.keyword == h.keyword
    ensures g == h
  {
    OpensUnique(text, g.keyword, g.nameStart, g.nameEnd, g.argumentsStart);
    OpensUnique(text, h.keyword, h.nameStart, h.nameEnd, h.argumentsStart);
    ArgumentsUnique(text, g.argumentsStart, g.argumentsEnd, h.argumentsEnd);
    SkipSpaceUnique(text, g.argumentsEnd + 1, g.brace);
    SkipSpaceUnique(text, h.argumentsEnd + 1, h.brace);
  }

  lemma KeywordLetters(text: string, p: nat)
    requires KeywordAt(text, p)
    ensures text[p] == 'f'
    ensures forall i | p < i < p + |KEYWORD| :: text[i] != 'f'
    ensures forall i | p <= i < p + |KEYWORD| :: IsIdentifier(text[i])
  {
    forall i | p <= i < p + |KEYWORD| ensures text[i] == KEYWORD[i - p] {
      assert text[i] == text[p..p + |KEYWORD|][i - p];
    }
  }

  // A whole-word keyword within a name is followed by no name of its own.
  lemma NoOpeningInName(text: string, s: nat, e: nat, a: nat, k: nat, s': nat, e': nat, a': nat)
    requires s <= |text| && e == NameEnd(text, s) && a == SkipSpace(text, e) + 1 && a <= |text| && text[a - 1] == '('
    requires Opens(text, k, s', e', a') && s <= k
    ensures e <= k
  {
    var end := k + |KEYWORD|;
    OpensUnique(text, k, s', e', a');
    KeywordLetters(text, k);
    if k < e {
      NameEndIff(text, s, e);
      hide IsName, LexAt, Newlines, Arguments;
      assert end <= e;
      if end < e {
        NameCharacters(text, s, end);
      }
    }
  }

  // Between a keyword and the arguments it opens no other keyword opens any.
  lemma NoOpeningBefore(text: string, k: nat, s: nat, e: nat, a: nat, k': nat, s': nat, e': nat, a': nat)
    requires Opens(text, k, s, e, a) && Opens(text, k', s', e', a') && k < k'
    ensures a <= k'
  {
    OpensUnique(text, k, s, e, a);
    KeywordLetters(text, k);
    KeywordLetters(text, k');
    if s <= k' {
      NoOpeningInName(text, s, e, a, k', s', e', a');
    }
    hide IsName, LexAt, Newlines, Arguments, SkipSpace, NameEnd;
  }

  // Which openings are looked at

  // p is in the argument list that the keyword at k opens.
  ghost predicate Holds(text: string, k: nat, p: nat) {
    exists s: nat, e: nat, a: nat :: Opens(text, k, s, e, a) && k < p && Inside(text, a, p)
  }

  // Of what lies in argument lists, only what lies in those of visited openings is passed over.
  ghost predicate Visited(text: string, p: nat)
    decreases p
  {
    forall k: nat | k < p && Holds(text, k, p) :: !Visited(text, k)
  }

  // The scanner

  method SkipWhitespace(text: string, start: nat) returns (position: nat)
    requires start <= |text|
    ensures position == SkipSpace(text, start)
  {
    position := start;
    while position < |text| && IsSpace(text[position])
      invariant start <= position <= |text| && SkipSpace(text, start) == SkipSpace(text, position)
    {
      position := position + 1;
    }
  }

  // text.find(KEYWORD, from), or the length of the text for npos
  method FindKeyword(text: string, from: nat) returns (p: nat)
    requires from <= |text|
    ensures from <= p <= |text| && (p < |text| ==> KeywordAt(text, p))
    ensures forall q | from <= q < p :: !KeywordAt(text, q)
  {
    p := from;
    while p < |text| && !KeywordAt(text, p)
      invariant from <= p <= |text| && forall q | from <= q < p :: !KeywordAt(text, q)
    {
      p := p + 1;
    }
  }

  method ScanName(text: string, nameStart: nat) returns (position: nat)
    requires nameStart <= |text|
    ensures position == NameEnd(text, nameStart)
  {
    position := nameStart;
    while position < |text|
      invariant nameStart <= position <= |text| && NameEnd(text, nameStart) == NameEnd(text, position)
    {
      if IsIdentifier(text[position]) || text[position] == '.' {
        position := position + 1;
        continue;
      }
      if position + 1 < |text| && text[position] == ':' && text[position + 1] == ':' {
        position := position + 2;
        continue;
      }
      break;
    }
  }

  // Reads up to and including the parenthesis that closes the list, or to the end of the text.
  method ScanArguments(text: string, argumentsStart: nat) returns (position: nat, depth: int)
    requires argumentsStart <= |text|
    ensures argumentsStart <= position <= |text| && depth >= 0
    ensures depth == 0 ==> position > argumentsStart && Arguments(text, argumentsStart, position - 1)
    ensures depth > 0 ==> Inside(text, argumentsStart, |text|)
  {
    position, depth := argumentsStart, 1;
    var quote: Option<char> := None;
    var escaped := false;
    while position < |text| && depth > 0
      invariant argumentsStart <= position <= |text| && depth >= 0
      invariant Lexer(depth, quote, escaped) == LexAt(text, argumentsStart, position)
      invariant forall j | argumentsStart <= j < position :: LexAt(text, argumentsStart, j).depth > 0
    {
      var character := text[position];
      if quote.Some? {
        if escaped {
          escaped := false;
        } else if character == '\\' {
          escaped := true;
        } else if character == quote.value {
          quote := None;
        }
      } else if character == '\'' || character == '"' {
        quote := Some(character);
      } else if character == '(' {
        depth := depth + 1;
      } else if character == ')' {
        depth := depth - 1;
      }
      position := position + 1;
    }
  }

  // Of the headers that begin before `limit`, exactly the visited ones are reported.
  ghost predicate ExactTo(text: string, headers: seq<Header>, limit: nat) {
    forall h | IsHeader(text, h) && h.keyword < limit :: h in headers <==> Visited(text, h.keyword)
  }

  // The list of no visited opening before p reaches p.
  ghost predicate Clear(text: string, p: nat) {
    forall k: nat, q: nat | k < p <= q && Holds(text, k, q) :: !Visited(text, k)
  }

  ghost predicate Disjoint(headers: seq<Header>) {
    forall i, j | 0 <= i < j < |headers| :: headers[i].brace < headers[j].keyword
  }

  // What one keyword leads to: nothing, an argument list with no body, a header, or the end.
  datatype Candidate =
    | NoArguments
    | Unbalanced
    | NoBody(position: nat)
    | Found(nameStart: nat, nameEnd: nat, argumentsStart: nat, argumentsEnd: nat, brace: nat)

  // The loop body from the whole-word test on.
  method ReadCandidate(text: string, p: nat) returns (c: Candidate)
    requires KeywordAt(text, p)
    ensures c.NoArguments? ==> forall s: nat, e: nat, a: nat :: !Opens(text, p, s, e, a)
    ensures c.Unbalanced? ==> exists s: nat, e: nat, a: nat :: Opens(text, p, s, e, a) && Inside(text, a, |text|)
    ensures c.NoBody? ==>
              exists s: nat, e: nat, a: nat, z: nat :: Opens(text, p, s, e, a) && Arguments(text, a, z)
                                   && c.position == SkipSpace(text, z + 1)
                                   && (c.position < |text| ==> text[c.position] != '{')
    ensures c.Found? ==>
              && c.nameStart <= |text|
              && IsHeader(text, Header(p, c.nameStart, c.nameEnd, c.argumentsStart, c.argumentsEnd, c.brace,
                                       1 + Newlines(text[..c.nameStart])))
  {
    var opens, nameStart, nameEnd, argumentsStart := ReadOpening(text, p);
    if !opens {
      return NoArguments;
    }
    hide Opens, LexAt;
    var position, depth := ScanArguments(text, argumentsStart);
    if depth != 0 {
      return Unbalanced;
    }
    var argumentsEnd := position - 1;
    position := SkipWhitespace(text, position);
    if position >= |text| || text[position] != '{' {
      return NoBody(position);
    }
    return Found(nameStart, nameEnd, argumentsStart, argumentsEnd, position);
  }

  // Up to the opening parenthesis
  method ReadOpening(text: string, p: nat)
    returns (opens: bool, nameStart: nat, nameEnd: nat, argumentsStart: nat)
    requires KeywordAt(text, p)
    ensures opens ==> Opens(text, p, nameStart, nameEnd, argumentsStart)
    ensures !opens ==> forall s: nat, e: nat, a: nat :: !Opens(text, p, s, e, a)
  {
    forall s: nat, e: nat, a: nat | Opens(text, p, s, e, a)
      ensures s == SkipSpace(text, p + |KEYWORD|) && e == NameEnd(text, s) && a == SkipSpace(text, e) + 1
    {
      OpensUnique(text, p, s, e, a);
    }
    opens, nameStart, nameEnd, argumentsStart := false, 0, 0, 0;
    var afterKeyword := p + |KEYWORD|;
    if (p > 0 && IsIdentifier(text[p - 1])) || (afterKeyword < |text| && IsIdentifier(text[afterKeyword])) {
      return;
    }
    var position := SkipWhitespace(text, afterKeyword);
    if position >= |text| || !IsIdentifierStart(text[position]) {
      return;
    }
    nameStart := position;
    nameEnd := ScanName(text, nameStart);
    NameEndIff(text, nameStart, nameEnd);
    hide IsName, NameEnd;
    position := SkipWhitespace(text, nameEnd);
    if position >= |text| || text[position] != '(' {
      return;
    }
    argumentsStart := position + 1;
    opens := true;
  }

  // How far each outcome carries the scan.

  lemma ClearIsVisited(text: string, p: nat)
    requires Clear(text, p)
    ensures Visited(text, p)
  {
  }

  lemma OpensOnce(text: string, k: nat, s: nat, e: nat, a: nat, q: nat)
    requires Opens(text, k, s, e, a)
    ensures Holds(text, k, q) <==> k < q && Inside(text, a, q)
  {
    forall s': nat, e': nat, a': nat | Opens(text, k, s', e', a') ensures a' == a {
      OpensUnique(text, k, s, e, a);
      OpensUnique(text, k, s', e', a');
    }
    hide Opens, Inside;
  }

  lemma SkipToNext(text: string, headers: seq<Header>, from: nat, p: nat)
    requires from <= p && forall q | from <= q < p :: !KeywordAt(text, q)
    ensures ExactTo(text, headers, from) ==> ExactTo(text, headers, p)
    ensures Clear(text, from) ==> Clear(text, p)
  {
    hide Inside, Visited;
  }

  lemma PassNoArguments(text: string, headers: seq<Header>, p: nat)
    requires ExactTo(text, headers, p) && Clear(text, p)
    requires forall s: nat, e: nat, a: nat :: !Opens(text, p, s, e, a)
    ensures ExactTo(text, headers, p + 1) && Clear(text, p + 1)
  {
    hide Opens, Visited, Inside;
  }

  // What opens after p and up to the closing parenthesis of p's arguments is among them.
  lemma OpensInside(text: string, p: nat, s: nat, e: nat, a: nat, z: nat, k: nat, s': nat, e': nat, a': nat)
    requires Opens(text, p, s, e, a) && Inside(text, a, z) && Opens(text, k, s', e', a') && p < k <= z
    ensures Holds(text, p, k)
  {
    NoOpeningBefore(text, p, s, e, a, k, s', e', a');
    hide Opens;
    assert Inside(text, a, k);
  }

  // Nothing opens in white space or at a brace.
  lemma OpensWithLetter(text: string, z: nat, brace: nat, k: nat, s: nat, e: nat, a: nat)
    requires z <= brace <= |text| && AllSpace(text, z, brace) && Opens(text, k, s, e, a) && z <= k
    ensures brace <= k && (brace < |text| && text[brace] == '{' ==> brace < k)
  {
    KeywordLetters(text, k);
  }

  // What opens behind p and before the scan goes on at q is in the visited list of p.
  lemma PassedOver(text: string, p: nat, s: nat, e: nat, a: nat, z: nat, q: nat, k: nat, s': nat, e': nat, a': nat)
    requires Opens(text, p, s, e, a) && Inside(text, a, z) && z < q <= |text|
    requires AllSpace(text, z + 1, q) || (AllSpace(text, z + 1, q - 1) && text[q - 1] == '{')
    requires Visited(text, p) && Opens(text, k, s', e', a') && p < k < q
    ensures !Visited(text, k)
  {
    if z < k {
      if AllSpace(text, z + 1, q) {
        OpensWithLetter(text, z + 1, q, k, s', e', a');
      } else {
        OpensWithLetter(text, z + 1, q - 1, k, s', e', a');
      }
    }
    OpensInside(text, p, s, e, a, z, k, s', e', a');
  }

  // Behind a list that closes at z the scan is clear again.
  lemma ClearBehind(text: string, p: nat, s: nat, e: nat, a: nat, z: nat, q: nat)
    requires Clear(text, p) && Opens(text, p, s, e, a) && Arguments(text, a, z) && p < q && z < q <= |text|
    requires AllSpace(text, z + 1, q) || (AllSpace(text, z + 1, q - 1) && text[q - 1] == '{')
    ensures Clear(text, q)
  {
    ClearIsVisited(text, p);
    hide Visited, Opens, AllSpace;
    forall k: nat, x: nat | k < q <= x && Holds(text, k, x) ensures !Visited(text, k) {
      if k == p {
        OpensOnce(text, p, s, e, a, x);
      }
      if k > p {
        var s': nat, e': nat, a': nat :| Opens(text, k, s', e', a') && k < x && Inside(text, a', x);
        PassedOver(text, p, s, e, a, z, q, k, s', e', a');
      }
    }
  }

  lemma UnbalancedIsNoHeader(text: string, p: nat, s: nat, e: nat, a: nat, h: Header)
    requires Opens(text, p, s, e, a) && Inside(text, a, |text|)
    requires IsHeader(text, h)
    ensures h.keyword != p
  {
    OpensUnique(text, p, s, e, a);
    OpensUnique(text, h.keyword, h.nameStart, h.nameEnd, h.argumentsStart);
  }

  ghost predicate AllBefore(headers: seq<Header>, p: nat) {
    forall h | h in headers :: h.keyword < p
  }

  lemma PassUnbalanced(text: string, headers: seq<Header>, p: nat)
    requires ExactTo(text, headers, p) && Clear(text, p) && AllBefore(headers, p)
    requires exists s: nat, e: nat, a: nat :: Opens(text, p, s, e, a) && Inside(text, a, |text|)
    ensures ExactTo(text, headers, |text|)
  {
    ClearIsVisited(text, p);
    var s: nat, e: nat, a: nat :| Opens(text, p, s, e, a) && Inside(text, a, |text|);
    forall h | IsHeader(text, h) && p <= h.keyword < |text| ensures !Visited(text, h.keyword) {
      UnbalancedIsNoHeader(text, p, s, e, a, h);
      OpensInside(text, p, s, e, a, |text|, h.keyword, h.nameStart, h.nameEnd, h.argumentsStart);
    }
    hide IsHeader, Visited, Opens, Inside;
  }

  lemma BraceOf(text: string, p: nat, s: nat, e: nat, a: nat, z: nat, h: Header)
    requires Opens(text, p, s, e, a) && Arguments(text, a, z)
    requires IsHeader(text, h) && h.keyword == p
    ensures h.brace == SkipSpace(text, z + 1) < |text| && text[h.brace] == '{'
  {
    hide Opens, Arguments, SkipSpace;
    OpensUnique(text, p, s, e, a);
    OpensUnique(text, p, h.nameStart, h.nameEnd, h.argumentsStart);
    ArgumentsUnique(text, a, z, h.argumentsEnd);
    SkipSpaceUnique(text, z + 1, h.brace);
  }

  lemma BodilessIsNoHeader(text: string, p: nat, s: nat, e: nat, a: nat, z: nat, h: Header)
    requires Opens(text, p, s, e, a) && Arguments(text, a, z)
    requires var q := SkipSpace(text, z + 1); q < |text| ==> text[q] != '{'
    requires IsHeader(text, h)
    ensures h.keyword != p
  {
    hide IsHeader, Opens, Arguments;
    if h.keyword == p {
      BraceOf(text, p, s, e, a, z, h);
    }
  }

  lemma PassNoBody(text: string, headers: seq<Header>, p: nat, position: nat)
    requires ExactTo(text, headers, p) && Clear(text, p) && AllBefore(headers, p)
    requires exists s: nat, e: nat, a: nat, z: nat ::
               Opens(text, p, s, e, a) && Arguments(text, a, z)
               && position == SkipSpace(text, z + 1) && (position < |text| ==> text[position] != '{')
    ensures p < position <= |text| && ExactTo(text, headers, position) && Clear(text, position)
  {
    hide IsHeader, Opens, LexAt, Visited, Holds, Clear;
    var s: nat, e: nat, a: nat, z: nat :|
      Opens(text, p, s, e, a) && Arguments(text, a, z)
      && position == SkipSpace(text, z + 1) && (position < |text| ==> text[position] != '{');
    OpensForward(text, p, s, e, a, z);
    ClearIsVisited(text, p);
    ClearBehind(text, p, s, e, a, z, position);
    forall h | IsHeader(text, h) && p <= h.keyword < position ensures !Visited(text, h.keyword) {
      BodilessIsNoHeader(text, p, s, e, a, z, h);
      HeaderOpens(text, h);
      PassedOver(text, p, s, e, a, z, position, h.keyword, h.nameStart, h.nameEnd, h.argumentsStart);
    }
  }

  lemma HeaderOpens(text: string, h: Header)
    requires IsHeader(text, h)
    ensures Opens(text, h.keyword, h.nameStart, h.nameEnd, h.argumentsStart)
    ensures Arguments(text, h.argumentsStart, h.argumentsEnd) && h.argumentsEnd < h.brace < |text|
    ensures Inside(text, h.argumentsStart, h.argumentsEnd)
    ensures AllSpace(text, h.argumentsEnd + 1, h.brace) && text[h.brace] == '{'
  {
  }

  // A header that begins behind g and before the scan goes on.
  lemma FoundPassesOver(text: string, g: Header, h: Header)
    requires IsHeader(text, g) && IsHeader(text, h) && Visited(text, g.keyword)
    requires g.keyword < h.keyword < g.brace + 1
    ensures !Visited(text, h.keyword)
  {
    hide IsHeader, Opens, Arguments, Inside, AllSpace, Visited;
    HeaderOpens(text, g);
    HeaderOpens(text, h);
    PassedOver(text, g.keyword, g.nameStart, g.nameEnd, g.argumentsStart, g.argumentsEnd, g.brace + 1,
               h.keyword, h.nameStart, h.nameEnd, h.argumentsStart);
  }

  lemma FoundIsClear(text: string, g: Header)
    requires Clear(text, g.keyword) && IsHeader(text, g)
    ensures Clear(text, g.brace + 1) && Visited(text, g.keyword)
  {
    hide IsHeader, Opens, Arguments, Inside, AllSpace, Visited, Clear;
    HeaderOpens(text, g);
    HeaderForward(text, g);
    ClearIsVisited(text, g.keyword);
    assert g.argumentsEnd < g.brace + 1;
    ClearBehind(text, g.keyword, g.nameStart, g.nameEnd, g.argumentsStart, g.argumentsEnd, g.brace + 1);
  }

  lemma PassFound(text: string, headers: seq<Header>, g: Header)
    requires ExactTo(text, headers, g.keyword) && Clear(text, g.keyword) && AllBefore(headers, g.keyword)
    requires IsHeader(text, g)
    ensures ExactTo(text, headers + [g], g.brace + 1) && Clear(text, g.brace + 1)
  {
    hide IsHeader, Visited, Clear;
    FoundIsClear(text, g);
    assert (headers + [g])[|headers|] == g;
    forall h | IsHeader(text, h) && h.keyword < g.brace + 1
      ensures h in headers + [g] <==> Visited(text, h.keyword)
    {
      if h.keyword == g.keyword {
        HeaderUnique(text, g, h);
      } else if h.keyword > g.keyword {
        FoundPassesOver(text, g, h);
      }
    }
  }

  lemma {:induction false} NewlinesConcat(s: string, t: string)
    ensures Newlines(s + t) == Newlines(s) + Newlines(t)
  {
    if t == [] {
      assert s + t == s;
    } else {
      assert (s + t)[..|s + t| - 1] == s + t[..|t| - 1];
      NewlinesConcat(s, t[..|t| - 1]);
    }
  }

  lemma NewlinesSplit(text: string, p: nat, q: nat)
    requires p <= q <= |text|
    ensures Newlines(text[..q]) == Newlines(text[..p]) + Newlines(text[p..q])
  {
    assert text[..q] == text[..p] + text[p..q];
    NewlinesConcat(text[..p], text[p..q]);
  }

  // What holds while the scan stands at p: `line` is the line of `counted`.
  ghost predicate ScannedTo(text: string, headers: seq<Header>, p: nat, counted: nat, line: nat) {
    && counted <= p <= |text| && line == 1 + Newlines(text[..counted])
    && (forall h | h in headers :: IsHeader(text, h) && h.keyword < h.brace < p)
    && Disjoint(headers) && ExactTo(text, headers, p)
  }

  lemma ScanFound(text: string, headers: seq<Header>, counted: nat, line: nat, h: Header)
    requires ScannedTo(text, headers, h.keyword, counted, line) && Clear(text, h.keyword) && IsHeader(text, h)
    ensures counted <= h.nameStart <= |text| && h.line == line + Newlines(text[counted..h.nameStart])
    ensures ScannedTo(text, headers + [h], h.brace + 1, h.nameStart, h.line) && Clear(text, h.brace + 1)
  {
    HeaderForward(text, h);
    PassFound(text, headers, h);
    NewlinesSplit(text, counted, h.nameStart);
    assert h.line == 1 + Newlines(text[..h.nameStart]);
    hide IsHeader, ExactTo, Clear, Newlines;
  }

  // The other outcomes report nothing and move the scan on.
  lemma ScanOn(text: string, headers: seq<Header>, p: nat, counted: nat, line: nat, q: nat)
    requires ScannedTo(text, headers, p, counted, line)
    requires p <= q <= |text| && ExactTo(text, headers, q)
    ensures ScannedTo(text, headers, q, counted, line)
  {
    hide ExactTo, IsHeader, Newlines;
  }

  lemma ScanIsBefore(text: string, headers: seq<Header>, p: nat, counted: nat, line: nat)
    requires ScannedTo(text, headers, p, counted, line)
    ensures AllBefore(headers, p) && ExactTo(text, headers, p)
  {
    hide ExactTo, IsHeader, Newlines;
  }

  lemma ScanNoArguments(text: string, headers: seq<Header>, p: nat, counted: nat, line: nat)
    requires ScannedTo(text, headers, p, counted, line) && Clear(text, p) && p < |text|
    requires forall s: nat, e: nat, a: nat :: !Opens(text, p, s, e, a)
    ensures ScannedTo(text, headers, p + 1, counted, line) && Clear(text, p + 1)
  {
    hide ScannedTo, ExactTo, Clear, Opens;
    ScanIsBefore(text, headers, p, counted, line);
    PassNoArguments(text, headers, p);
    ScanOn(text, headers, p, counted, line, p + 1);
  }

  lemma ScanUnbalanced(text: string, headers: seq<Header>, p: nat, counted: nat, line: nat)
    requires ScannedTo(text, headers, p, counted, line) && Clear(text, p) && p <= |text|
    requires exists s: nat, e: nat, a: nat :: Opens(text, p, s, e, a) && Inside(text, a, |text|)
    ensures ScannedTo(text, headers, |text|, counted, line)
  {
    hide ScannedTo, ExactTo, Clear, Opens, Inside;
    ScanIsBefore(text, headers, p, counted, line);
    PassUnbalanced(text, headers, p);
    ScanOn(text, headers, p, counted, line, |text|);
  }

  lemma ScanNoBody(text: string, headers: seq<Header>, p: nat, counted: nat, line: nat, position: nat)
    requires ScannedTo(text, headers, p, counted, line) && Clear(text, p)
    requires exists s: nat, e: nat, a: nat, z: nat ::
               Opens(text, p, s, e, a) && Arguments(text, a, z)
               && position == SkipSpace(text, z + 1) && (position < |text| ==> text[position] != '{')
    ensures p < position <= |text| && ScannedTo(text, headers, position, counted, line) && Clear(text, position)
  {
    hide ScannedTo, ExactTo, Clear, Opens, Arguments;
    ScanIsBefore(text, headers, p, counted, line);
    PassNoBody(text, headers, p, position);
    ScanOn(text, headers, p, counted, line, position);
  }

  lemma ScanToNext(text: string, headers: seq<Header>, p: nat, counted: nat, line: nat, q: nat)
    requires ScannedTo(text, headers, p, counted, line) && Clear(text, p)
    requires p <= q <= |text| && forall i | p <= i < q :: !KeywordAt(text, i)
    ensures ScannedTo(text, headers, q, counted, line) && Clear(text, q)
  {
    ScanIsBefore(text, headers, p, counted, line);
    SkipToNext(text, headers, p, q);
    hide ExactTo, Clear, KeywordAt;
    ScanOn(text, headers, p, counted, line, q);
  }

  lemma ScanStart(text: string)
    ensures ScannedTo(text, [], 0, 0, 1) && Clear(text, 0)
  {
  }

  // Reports, in order, exactly the visited headers, each with its line; they do not overlap.
  method ForEachScriptFunction(text: string) returns (headers: seq<Header>)
    ensures forall h :: h in headers <==> IsHeader(text, h) && Visited(text, h.keyword)
    ensures Disjoint(headers)
  {
    ghost var counted, line;
    headers, counted, line := ScanAll(text);
    assert ScannedTo(text, headers, |text|, counted, line);
    hide Visited, Newlines;
  }

  method ScanAll(text: string) returns (headers: seq<Header>, ghost counted: nat, ghost lineCounted: nat)
    ensures ScannedTo(text, headers, |text|, counted, lineCounted)
  {
    headers := [];
    var countedPosition: nat := 0;
    var line: nat := 1;
    hide ScannedTo, Clear, KeywordAt;
    var searchPosition := FindKeyword(text, 0);
    ScanStart(text);
    ScanToNext(text, headers, 0, countedPosition, line, searchPosition);
    while searchPosition < |text|
      invariant searchPosition <= |text| && (searchPosition < |text| ==> KeywordAt(text, searchPosition))
      invariant ScannedTo(text, headers, searchPosition, countedPosition, line) && Clear(text, searchPosition)
      decreases |text| - searchPosition
    {
      var resume: nat, balanced;
      headers, resume, countedPosition, line, balanced := ScanOne(text, headers, searchPosition, countedPosition, line);
      if !balanced {
        break;
      }
      searchPosition := FindKeyword(text, resume);
      ScanToNext(text, headers, resume, countedPosition, line, searchPosition);
    }
    counted, lineCounted := countedPosition, line;
  }

  // One occurrence of the keyword; after a list that never closes the scan is over.
  method ScanOne(text: string, before: seq<Header>, searchPosition: nat, counted: nat, lineCounted: nat)
    returns (headers: seq<Header>, resume: nat, countedPosition: nat, line: nat, balanced: bool)
    requires searchPosition < |text| && KeywordAt(text, searchPosition)
    requires ScannedTo(text, before, searchPosition, counted, lineCounted) && Clear(text, searchPosition)
    ensures balanced ==> searchPosition < resume <= |text| && Clear(text, resume)
    ensures ScannedTo(text, headers, if balanced then resume else |text|, countedPosition, line)
  {
    hide ScannedTo, Opens, IsHeader, Newlines, Inside, Arguments, SkipSpace, Clear, KeywordAt;
    headers, countedPosition, line, balanced := before, counted, lineCounted, true;
    var c := ReadCandidate(text, searchPosition);
    match c {
      case NoArguments =>
        ScanNoArguments(text, headers, searchPosition, counted, line);
        resume := searchPosition + 1;
      case Unbalanced =>
        ScanUnbalanced(text, headers, searchPosition, counted, line);
        resume, balanced := |text|, false;
      case NoBody(position) =>
        ScanNoBody(text, headers, searchPosition, counted, line, position);
        resume := position;
      case Found(nameStart, nameEnd, argumentsStart, argumentsEnd, brace) =>
        ghost var h := Header(searchPosition, nameStart, nameEnd, argumentsStart, argumentsEnd, brace,
                              1 + Newlines(text[..nameStart]));
        ScanFound(text, headers, counted, line, h);
        HeaderForward(text, h);
        line := line + Newlines(text[countedPosition..nameStart]);
        countedPosition := nameStart;
        headers := headers
          + [Header(searchPosition, nameStart, nameEnd, argumentsStart, argumentsEnd, brace, line)];
        resume := brace + 1;
    }
  }

  lemma HeaderForward(text: string, h: Header)
    requires IsHeader(text, h)
    ensures h.keyword < h.nameStart < h.brace < |text|
  {
  }

  lemma OpensForward(text: string, p: nat, s: nat, e: nat, a: nat, z: nat)
    requires Opens(text, p, s, e, a) && Arguments(text, a, z)
    ensures p < SkipSpace(text, z + 1)
  {
  }
}
