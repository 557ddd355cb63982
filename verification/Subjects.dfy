/** Message subjects: five dot-separated tokens, their validation and parsing, and the
    NATS patterns matched against them. Strings are sequences of code points, whose
    order is also the byte order of their UTF-8 encoding. */
module Subjects {

  // ---------------------------------------------------------------- tokens

  /** The printable characters outside ASCII: an arbitrary set, fixed once. */
  const PRINTABLE_BEYOND_ASCII: set<char>

  predicate IsPrint(r: char) {
    if r < '\U{7f}' then ' ' <= r else r in PRINTABLE_BEYOND_ASCII
  }

  predicate IsSpace(r: char) {
    || '\U{09}' <= r <= '\U{0d}' || r == ' ' || r == '\U{85}' || r == '\U{a0}' || r == '\U{1680}'
    || '\U{2000}' <= r <= '\U{200a}' || r == '\U{2028}' || r == '\U{2029}' || r == '\U{202f}'
    || r == '\U{205f}' || r == '\U{3000}'
  }

  predicate Reserved(r: char) {
    r == '.' || r == '*' || r == '>' || r == '/' || r == '\\' || IsSpace(r) || !IsPrint(r)
  }

  /** Among the ASCII characters the reserved ones are the control characters, the space, and
      the five that mean something in a subject or a path. */
  lemma ReservedAscii(r: char)
    requires r <= '\U{7f}' && '\U{7f}' !in PRINTABLE_BEYOND_ASCII
    ensures Reserved(r) <==> r <= ' ' || r == '\U{7f}' || r in {'.', '*', '>', '/', '\\'}
  {
  }

  datatype TokenCheck = Fine | Empty(field: string) | ReservedCharacter(field: string, r: char)

  predicate ValidToken(token: string) {
    token != "" && forall i | 0 <= i < |token| :: !Reserved(token[i])
  }

  /** `ValidateToken`: scans for the first reserved character. */
  method ValidateToken(field: string, token: string) returns (c: TokenCheck)
    ensures c.Fine? <==> ValidToken(token)
    ensures c.Empty? <==> token == ""
    ensures c.ReservedCharacter? ==>
      exists i :: 0 <= i < |token| && token[i] == c.r && Reserved(c.r) && forall j | 0 <= j < i :: !Reserved(token[j])
  {
    if token == "" {
      return Empty(field);
    }
    for i := 0 to |token|
      invariant forall j | 0 <= j < i :: !Reserved(token[j])
    {
      if Reserved(token[i]) {
        return ReservedCharacter(field, token[i]);
      }
    }
    return Fine;
  }

  /** A valid token is neither a wildcard nor split by a dot. */
  lemma ValidTokenIsPlain(token: string)
    requires ValidToken(token)
    ensures token != "*" && token != ">" && Dotless(token)
  {
    assert "*"[0] == '*' && ">"[0] == '>';
  }

  const KIND_EVENT := "event"

  lemma KindEventIsValid()
    ensures ValidToken(KIND_EVENT)
  {
    assert forall i | 0 <= i < |KIND_EVENT| :: KIND_EVENT[i] in ['e', 'v', 'n', 't'];
  }

  // ------------------------------------------------------- split and join

  predicate Dotless(s: string) {
    forall i | 0 <= i < |s| :: s[i] != '.'
  }

  /** `strings.Split(s, ".")`. */
  function Split(s: string): (parts: seq<string>)
    ensures parts != []
  {
    if s == "" then [""]
    else if s[0] == '.' then [""] + Split(s[1..])
    else var rest := Split(s[1..]); [[s[0]] + rest[0]] + rest[1..]
  }

  /** `strings.Join(parts, ".")`. */
  function Join(parts: seq<string>): string {
    if parts == [] then "" else if |parts| == 1 then parts[0] else parts[0] + "." + Join(parts[1..])
  }

  lemma {:induction false} SplitDotless(s: string)
    ensures forall i | 0 <= i < |Split(s)| :: Dotless(Split(s)[i])
  {
    if s != "" {
      SplitDotless(s[1..]);
    }
  }

  /** A character before the first token of a joined string. */
  lemma JoinPrepended(r: char, parts: seq<string>)
    requires parts != []
    ensures Join([[r] + parts[0]] + parts[1..]) == [r] + Join(parts)
  {
    var longer := [[r] + parts[0]] + parts[1..];
    assert longer[0] == [r] + parts[0] && longer[1..] == parts[1..];
    if |parts| > 1 {
      assert [r] + (parts[0] + "." + Join(parts[1..])) == ([r] + parts[0]) + "." + Join(parts[1..]);
    }
  }

  lemma {:induction false} JoinSplit(s: string)
    ensures Join(Split(s)) == s
  {
    if s != "" {
      JoinSplit(s[1..]);
      var rest := Split(s[1..]);
      assert s == [s[0]] + s[1..];
      if s[0] == '.' {
        assert ([""] + rest)[1..] == rest;
      } else {
        JoinPrepended(s[0], rest);
      }
    }
  }

  lemma {:induction false} SplitOfDotless(s: string)
    requires Dotless(s)
    ensures Split(s) == [s]
  {
    if s != "" {
      SplitOfDotless(s[1..]);
      assert [s[0]] + s[1..] == s;
    }
  }

  lemma {:induction false} SplitAtDot(head: string, tail: string)
    requires Dotless(head)
    ensures Split(head + "." + tail) == [head] + Split(tail)
  {
    var s := head + "." + tail;
    if head == "" {
      assert s[1..] == tail;
    } else {
      assert s[1..] == head[1..] + "." + tail;
      SplitAtDot(head[1..], tail);
      var rest := Split(s[1..]);
      assert rest[0] == head[1..] && rest[1..] == Split(tail);
      assert [s[0]] + head[1..] == head;
    }
  }

  lemma {:induction false} SplitJoin(parts: seq<string>)
    requires parts != [] && forall i | 0 <= i < |parts| :: Dotless(parts[i])
    ensures Split(Join(parts)) == parts
  {
    if |parts| == 1 {
      SplitOfDotless(parts[0]);
    } else {
      SplitJoin(parts[1..]);
      SplitAtDot(parts[0], Join(parts[1..]));
    }
  }

  /** Splitting is undone by joining, so equal parts mean equal strings. */
  lemma SplitInjective(s: string, t: string)
    requires Split(s) == Split(t)
    ensures s == t
  {
    JoinSplit(s);
    JoinSplit(t);
  }

  lemma {:induction false} SplitCount(parts: seq<string>, i: nat)
    requires i < |parts| && !Dotless(parts[i])
    ensures |Split(Join(parts))| > |parts|
    decreases |parts|
  {
    SplitCountAtLeast(parts);
    if |parts| == 1 {
      DottedSplits(parts[0]);
    } else {
      var tail := Join(parts[1..]);
      SplitConcatDot(parts[0], tail);
      if i == 0 {
        DottedSplits(parts[0]);
        SplitCountAtLeast(parts[1..]);
      } else {
        SplitCount(parts[1..], i - 1);
      }
    }
  }

  lemma {:induction false} SplitCountAtLeast(parts: seq<string>)
    requires parts != []
    ensures |Split(Join(parts))| >= |parts|
  {
    if |parts| > 1 {
      SplitCountAtLeast(parts[1..]);
      SplitConcatDot(parts[0], Join(parts[1..]));
    }
  }

  lemma {:induction false} SplitConcatDot(head: string, tail: string)
    ensures Split(head + "." + tail) == Split(head) + Split(tail)
  {
    var s := head + "." + tail;
    if head == "" {
      assert s[1..] == tail;
    } else {
      assert s[1..] == head[1..] + "." + tail;
      SplitConcatDot(head[1..], tail);
    }
  }

  lemma {:induction false} DottedSplits(s: string)
    requires !Dotless(s)
    ensures |Split(s)| > 1
  {
    if s[0] != '.' {
      var i :| 0 <= i < |s| && s[i] == '.';
      assert s[1..][i - 1] == '.';
      DottedSplits(s[1..]);
    }
  }

  // --------------------------------------------------------------- subjects

  datatype Subject = Subject(scope: string, kind: string, aggregateType: string, aggregateId: string, name: string) {
    function Tokens(): seq<string> {
      [scope, kind, aggregateType, aggregateId, name]
    }

    function ToString(): string {
      Join(Tokens())
    }

    predicate Valid() {
      forall i | 0 <= i < 5 :: ValidToken(Tokens()[i])
    }
  }

  const NO_SUBJECT := Subject("", "", "", "", "")

  /** `ParseSubject`: the subject read from the string, and whether it is a valid one. */
  function ParseSubject(s: string): (r: (Subject, bool)) {
    var parts := Split(s);
    if |parts| != 5 then (NO_SUBJECT, false)
    else
      var subj := Subject(parts[0], parts[1], parts[2], parts[3], parts[4]);
      (subj, subj.Valid())
  }

  /** `ParseSubject(s.String())` succeeds exactly when `s` is valid, and then returns `s`. */
  lemma ParsePrinted(s: Subject)
    ensures ParseSubject(s.ToString()).1 <==> s.Valid()
    ensures s.Valid() ==> ParseSubject(s.ToString()).0 == s
  {
    var tokens := s.Tokens();
    if forall i | 0 <= i < |tokens| :: Dotless(tokens[i]) {
      SplitJoin(tokens);
    } else {
      var i :| 0 <= i < |tokens| && !Dotless(tokens[i]);
      SplitCount(tokens, i);
      var j :| 0 <= j < |tokens[i]| && tokens[i][j] == '.';
      assert !ValidToken(tokens[i]);
    }
  }

  /** Every string that parses prints back to itself. */
  lemma PrintParsed(s: string)
    requires ParseSubject(s).1
    ensures ParseSubject(s).0.ToString() == s && ParseSubject(s).0.Valid()
  {
    JoinSplit(s);
    assert ParseSubject(s).0.Tokens() == Split(s);
  }

  lemma SubjectTokens(s: Subject)
    requires s.Valid()
    ensures Split(s.ToString()) == s.Tokens()
  {
    SplitJoin(s.Tokens());
  }

  // --------------------------------------------------------------- patterns

  /** NATS matching on tokens: `*` stands for one token, a final `>` for one or more. */
  predicate TokensMatch(pattern: seq<string>, tokens: seq<string>) {
    if pattern == [] then tokens == []
    else if pattern == [">"] then tokens != []
    else tokens != [] && (pattern[0] == "*" || pattern[0] == tokens[0]) && TokensMatch(pattern[1..], tokens[1..])
  }

  predicate Matches(pattern: string, subject: string) {
    TokensMatch(Split(pattern), Split(subject))
  }

  /** A pattern token admits a subject token. */
  predicate Admits(p: string, t: string) {
    p == "*" || p == t
  }

  /** Without `>`, matching is token by token. */
  lemma {:induction false} TokensMatchPointwise(pattern: seq<string>, tokens: seq<string>)
    requires pattern == [] || pattern[|pattern| - 1] != ">"
    ensures TokensMatch(pattern, tokens) <==>
            |pattern| == |tokens| && forall i | 0 <= i < |pattern| :: Admits(pattern[i], tokens[i])
  {
    if pattern != [] && tokens != [] {
      TokensMatchPointwise(pattern[1..], tokens[1..]);
      assert forall i | 0 < i < |pattern| :: pattern[i] == pattern[1..][i - 1];
      assert forall i | 0 < i < |tokens| :: tokens[i] == tokens[1..][i - 1];
      if Admits(pattern[0], tokens[0]) && forall i | 0 <= i < |pattern[1..]| && |pattern| == |tokens| ::
          Admits(pattern[1..][i], tokens[1..][i]) {
        assert |pattern| == |tokens| ==> forall i | 0 <= i < |pattern| :: Admits(pattern[i], tokens[i]);
      }
    }
  }

  lemma {:induction false} TokensMatchTail(pattern: seq<string>, tokens: seq<string>)
    requires pattern != [] && pattern[|pattern| - 1] == ">"
    requires forall i | 0 <= i < |pattern| - 1 :: pattern[i] != ">"
    ensures TokensMatch(pattern, tokens) <==>
            |pattern| <= |tokens| && forall i | 0 <= i < |pattern| - 1 :: Admits(pattern[i], tokens[i])
  {
    if |pattern| > 1 && tokens != [] {
      TokensMatchTail(pattern[1..], tokens[1..]);
      assert forall i | 0 < i < |pattern| :: pattern[i] == pattern[1..][i - 1];
      assert forall i | 0 < i < |tokens| :: tokens[i] == tokens[1..][i - 1];
      if Admits(pattern[0], tokens[0]) && |pattern| <= |tokens| &&
         forall i | 0 <= i < |pattern[1..]| - 1 :: Admits(pattern[1..][i], tokens[1..][i]) {
        assert forall i | 0 <= i < |pattern| - 1 :: Admits(pattern[i], tokens[i]);
      }
    }
  }

  /** A token that may stand in a filter: a valid one or the wildcard. */
  predicate FilterToken(t: string) {
    t == "*" || ValidToken(t)
  }

  lemma FilterTokensDotless(parts: seq<string>)
    requires forall i | 0 <= i < |parts| :: FilterToken(parts[i]) || parts[i] == ">"
    ensures forall i | 0 <= i < |parts| :: Dotless(parts[i])
  {
  }

  /** A five-token filter matches exactly the subjects it admits token by token. */
  lemma FilterMatchesSubject(parts: seq<string>, s: Subject)
    requires |parts| == 5 && forall i | 0 <= i < 5 :: FilterToken(parts[i])
    requires s.Valid()
    ensures Matches(Join(parts), s.ToString()) <==> forall i | 0 <= i < 5 :: Admits(parts[i], s.Tokens()[i])
  {
    FilterTokensDotless(parts);
    SplitJoin(parts);
    SubjectTokens(s);
    if parts[4] != "*" { ValidTokenIsPlain(parts[4]); }
    TokensMatchPointwise(parts, s.Tokens());
  }

  /** A filter of four tokens and a final `>` matches exactly the subjects that agree on
      the four: `>` can only stand for the fifth. */
  lemma TailFilterMatchesSubject(parts: seq<string>, s: Subject)
    requires |parts| == 5 && parts[4] == ">" && forall i | 0 <= i < 4 :: FilterToken(parts[i])
    requires s.Valid()
    ensures Matches(Join(parts), s.ToString()) <==> forall i | 0 <= i < 4 :: Admits(parts[i], s.Tokens()[i])
  {
    FilterTokensDotless(parts);
    SplitJoin(parts);
    SubjectTokens(s);
    forall i | 0 <= i < 4 ensures parts[i] != ">" {
      if parts[i] != "*" { ValidTokenIsPlain(parts[i]); }
    }
    TokensMatchTail(parts, s.Tokens());
  }

  /** `AggregateMessageFilter`. */
  function AggregateMessageFilter(scope: string, aggregateType: string, aggregateId: string): string {
    Join([scope, KIND_EVENT, aggregateType, aggregateId, ">"])
  }

  /** The aggregate filter, on which optimistic concurrency rests, matches exactly the
      event-kind subjects of that aggregate. */
  lemma AggregateFilterExact(scope: string, aggregateType: string, aggregateId: string, s: Subject)
    requires ValidToken(scope) && ValidToken(aggregateType) && ValidToken(aggregateId)
    requires s.Valid()
    ensures Matches(AggregateMessageFilter(scope, aggregateType, aggregateId), s.ToString()) <==>
            s.scope == scope && s.kind == KIND_EVENT && s.aggregateType == aggregateType && s.aggregateId == aggregateId
  {
    KindEventIsValid();
    ValidTokenIsPlain(scope);
    ValidTokenIsPlain(KIND_EVENT);
    ValidTokenIsPlain(aggregateType);
    ValidTokenIsPlain(aggregateId);
    var parts := [scope, KIND_EVENT, aggregateType, aggregateId, ">"];
    TailFilterMatchesSubject(parts, s);
    assert Matches(Join(parts), s.ToString()) <==>
      Admits(parts[0], s.Tokens()[0]) && Admits(parts[1], s.Tokens()[1]) &&
      Admits(parts[2], s.Tokens()[2]) && Admits(parts[3], s.Tokens()[3]);
  }

  predicate HasSuffix(s: string, suffix: string) {
    |suffix| <= |s| && s[|s| - |suffix|..] == suffix
  }

  /** The test for snapshot messages looks only at the end of the subject string; on valid
      subjects it is the same as comparing the name token. */
  lemma SnapshotSuffixIsNameEquality(s: Subject, name: string)
    requires s.Valid() && ValidToken(name)
    ensures HasSuffix(s.ToString(), "." + name) <==> s.name == name
  {
    var str, front := s.ToString(), Join([s.scope, s.kind, s.aggregateType, s.aggregateId]);
    JoinLast(s.Tokens());
    assert s.Tokens()[..4] == [s.scope, s.kind, s.aggregateType, s.aggregateId];
    assert str == front + "." + s.name;
    assert ValidToken(s.Tokens()[4]);
    ValidTokenIsPlain(s.name);
    ValidTokenIsPlain(name);
    if HasSuffix(str, "." + name) {
      var cut := |str| - |name| - 1;
      assert str[cut..] == "." + name;
      assert str == str[..cut] + "." + name;
      SplitConcatDot(str[..cut], name);
      SplitConcatDot(front, s.name);
      SplitOfDotless(name);
      SplitOfDotless(s.name);
      var parts := Split(str);
      assert parts[|parts| - 1] == name;
      assert parts[|parts| - 1] == s.name;
    } else {
      assert str[|front|..] == "." + s.name;
    }
  }

  lemma {:induction false} JoinLast(parts: seq<string>)
    requires |parts| > 1
    ensures Join(parts) == Join(parts[..|parts| - 1]) + "." + parts[|parts| - 1]
  {
    var front := parts[..|parts| - 1];
    if |parts| > 2 {
      JoinLast(parts[1..]);
      assert parts[1..][..|parts| - 2] == front[1..];
      assert Join(parts) == parts[0] + "." + (Join(front[1..]) + "." + parts[|parts| - 1]);
      assert Join(front) == parts[0] + "." + Join(front[1..]);
    }
  }
}
