/** Splitting the argument list of an Enum type on its own commas
    (suites/generative/test_literal_rendering.py, `_split_members`). */
module Splitter {
  import opened Ordering

  datatype Scan = Scan(depth: int, quote: Option<char>)

  const TOP: Scan := Scan(0, None)

  function Next(st: Scan, escaped: bool, c: char): Scan {
    if st.quote.Some? then (if c == st.quote.value && !escaped then st.(quote := None) else st)
    else if c == '\'' || c == '\"' then st.(quote := Some(c))
    else if c == '(' then st.(depth := st.depth + 1)
    else if c == ')' then st.(depth := st.depth - 1)
    else st
  }

  /** The scanner before character `i`. */
  function StateAt(s: string, i: nat): Scan
    requires i <= |s|
  {
    if i == 0 then TOP else Next(StateAt(s, i - 1), i > 1 && s[i - 2] == '\\', s[i - 1])
  }

  /** A comma that separates two members. */
  predicate IsCut(s: string, i: nat) {
    i < |s| && s[i] == ',' && StateAt(s, i) == TOP
  }

  function FirstCut(s: string, i: nat): (k: nat)
    requires i <= |s|
    ensures i <= k <= |s|
    ensures k < |s| ==> IsCut(s, k)
    ensures forall j | i <= j < k :: !IsCut(s, j)
    decreases |s| - i
  {
    if i == |s| || IsCut(s, i) then i else FirstCut(s, i + 1)
  }

  function Split(s: string): (parts: seq<string>)
    ensures parts != []
  {
    var k := FirstCut(s, 0);
    if k == |s| then [s] else [s[..k]] + Split(s[k + 1..])
  }

  /** `",".join(parts)` */
  function Join(parts: seq<string>): string {
    if parts == [] then "" else if |parts| == 1 then parts[0] else parts[0] + "," + Join(parts[1..])
  }

  lemma FirstCutIs(s: string, k: nat)
    requires k <= |s| && (k < |s| ==> IsCut(s, k)) && forall j | 0 <= j < k :: !IsCut(s, j)
    ensures FirstCut(s, 0) == k
  {
  }

  // ----- the scanner on pieces -----

  lemma {:induction false} StateOfPrefix(s: string, t: string, i: nat)
    requires i <= |s|
    ensures StateAt(s + t, i) == StateAt(s, i)
  {
    if i > 0 { StateOfPrefix(s, t, i - 1); }
  }

  /** Past a separating comma the scanner starts afresh. */
  lemma {:induction false} StateAfterCut(s: string, k: nat, j: nat)
    requires IsCut(s, k) && j <= |s| - k - 1
    ensures StateAt(s, k + 1 + j) == StateAt(s[k + 1..], j)
  {
    if j == 0 {
      assert StateAt(s, k + 1) == Next(TOP, k + 1 > 1 && s[k - 1] == '\\', ',');
    } else {
      StateAfterCut(s, k, j - 1);
      assert s[k + 1..][j - 1] == s[k + j];
      if j > 1 { assert s[k + 1..][j - 2] == s[k + j - 1]; }
    }
  }

  // ----- splitting and joining undo each other -----

  /** Nothing is lost: the parts joined by commas are the input. */
  lemma {:induction false} JoinOfSplit(s: string)
    ensures Join(Split(s)) == s
    decreases |s|
  {
    var k := FirstCut(s, 0);
    if k < |s| {
      JoinOfSplit(s[k + 1..]);
      assert Split(s)[1..] == Split(s[k + 1..]);
      assert s == s[..k] + "," + s[k + 1..];
    }
  }

  ghost predicate CutFree(s: string) {
    forall i | 0 <= i < |s| :: !IsCut(s, i)
  }

  ghost predicate Closed(s: string) {
    StateAt(s, |s|) == TOP
  }

  /** No member has a comma of its own at the top, and quotes and parentheses balance in
      every member that another follows. */
  ghost predicate Members(parts: seq<string>) {
    && parts != []
    && (forall k | 0 <= k < |parts| :: CutFree(parts[k]))
    && (forall k | 0 <= k < |parts| - 1 :: Closed(parts[k]))
  }

  lemma PrefixIsMember(s: string, k: nat)
    requires k <= |s| && (forall j | 0 <= j < k :: !IsCut(s, j))
    ensures CutFree(s[..k])
    ensures IsCut(s, k) ==> Closed(s[..k])
  {
    assert s == s[..k] + s[k..];
    forall i | 0 <= i < k ensures !IsCut(s[..k], i) {
      StateOfPrefix(s[..k], s[k..], i);
      assert !IsCut(s, i);
    }
    StateOfPrefix(s[..k], s[k..], k);
  }

  lemma {:induction false} SplitGivesMembers(s: string)
    ensures Members(Split(s))
    decreases |s|
  {
    hide IsCut, CutFree, Closed;
    var k := FirstCut(s, 0);
    PrefixIsMember(s, k);
    if k == |s| {
      assert s[..k] == s;
    } else {
      SplitGivesMembers(s[k + 1..]);
    }
  }

  lemma {:induction false} MembersSplitBack(parts: seq<string>)
    requires Members(parts)
    ensures Split(Join(parts)) == parts
  {
    hide IsCut, StateAt, FirstCut;
    var s := Join(parts);
    if |parts| == 1 {
      LastPart(s);
    } else {
      var head, rest := parts[0], parts[1..];
      assert Members(rest) by { assert forall k | 0 <= k < |rest| :: rest[k] == parts[k + 1]; }
      MembersSplitBack(rest);
      CutAtEnd(head, Join(rest));
      assert s == head + ("," + Join(rest));
      assert s[..|head|] == head && s[|head| + 1..] == Join(rest);
      FirstCutIs(s, |head|);
    }
  }

  lemma CutAtEnd(head: string, tail: string)
    requires CutFree(head) && Closed(head)
    ensures IsCut(head + ("," + tail), |head|)
    ensures forall j | 0 <= j < |head| :: !IsCut(head + ("," + tail), j)
  {
    var s := head + ("," + tail);
    StateOfPrefix(head, "," + tail, |head|);
    forall j | 0 <= j < |head| ensures !IsCut(s, j) {
      StateOfPrefix(head, "," + tail, j);
      assert !IsCut(head, j);
    }
  }

  /** Splitting a joined list gives the list back for exactly the lists of members. */
  lemma SplitOfJoin(parts: seq<string>)
    ensures Split(Join(parts)) == parts <==> Members(parts)
  {
    hide Members;
    if Members(parts) {
      MembersSplitBack(parts);
    } else if Split(Join(parts)) == parts {
      SplitGivesMembers(Join(parts));
    }
  }

  // ----- quoted members -----

  lemma {:induction false} InsideQuotes(body: string, q: char, i: nat)
    requires (q == '\'' || q == '\"') && q !in body && i <= |body|
    ensures StateAt([q] + body + [q], i + 1) == Scan(0, Some(q))
  {
    var s := [q] + body + [q];
    if i == 0 {
      assert StateAt(s, 1) == Next(StateAt(s, 0), false, q);
    } else {
      InsideQuotes(body, q, i - 1);
      assert s[i] == body[i - 1];
    }
  }

  /** A quoted literal is one member exactly when it does not end in a backslash: the code
      reads any backslash before the closing quote as an escape, an escaped backslash too. */
  lemma QuotedMember(body: string, q: char)
    requires (q == '\'' || q == '\"') && q !in body
    ensures CutFree([q] + body + [q])
    ensures Closed([q] + body + [q]) <==> body == [] || body[|body| - 1] != '\\'
  {
    var s := [q] + body + [q];
    forall i | 0 <= i < |s| ensures !IsCut(s, i) {
      if i > 0 { InsideQuotes(body, q, i - 1); }
    }
    InsideQuotes(body, q, |body|);
    assert s[|body| + 1] == q;
    if body != [] { assert s[|body|] == body[|body| - 1]; }
  }

  /** So a list with an escaped backslash at the end of a literal is not split. */
  lemma EscapedBackslashJoinsMembers(second: string)
    ensures Split(Join(["'a\\\\'", second])) != ["'a\\\\'", second]
  {
    var members := ["'a\\\\'", second];
    assert members[0] == "'" + "a\\\\" + "'";
    QuotedMember("a\\\\", '\'');
    SplitOfJoin(members);
  }

  // ----- parentheses -----

  /** How often a character comes before place `i`. */
  function Times(c: char, s: string, i: nat): nat
    requires i <= |s|
  {
    if i == 0 then 0 else Times(c, s, i - 1) + if s[i - 1] == c then 1 else 0
  }

  ghost predicate Unquoted(s: string) {
    '\'' !in s && '\"' !in s
  }

  /** Without quotes the scanner counts: parentheses opened, less those closed. */
  lemma {:induction false} CountsParentheses(s: string, i: nat)
    requires Unquoted(s) && i <= |s|
    ensures StateAt(s, i) == Scan(Times('(', s, i) - Times(')', s, i), None)
  {
    if i > 0 {
      CountsParentheses(s, i - 1);
      assert s[i - 1] in s;
    }
  }

  /** Without quotes a comma separates exactly where as many parentheses are closed as are
      open, and a text is closed when they balance. */
  lemma UnquotedMember(s: string)
    requires Unquoted(s)
    ensures CutFree(s) <==> forall i | 0 <= i < |s| && s[i] == ',' :: Times('(', s, i) != Times(')', s, i)
    ensures Closed(s) <==> Times('(', s, |s|) == Times(')', s, |s|)
  {
    forall i | 0 <= i <= |s| ensures StateAt(s, i) == Scan(Times('(', s, i) - Times(')', s, i), None) {
      CountsParentheses(s, i);
    }
    hide StateAt, Times;
    if forall i | 0 <= i < |s| && s[i] == ',' :: Times('(', s, i) != Times(')', s, i) {
      forall i | 0 <= i < |s| ensures !IsCut(s, i) {
      }
    }
    if CutFree(s) {
      forall i | 0 <= i < |s| && s[i] == ',' ensures Times('(', s, i) != Times(')', s, i) {
        assert !IsCut(s, i);
      }
    }
  }

  /** A quoted literal hides whatever stands in it: parentheses too. */
  lemma QuotesHide(before: string, body: string, q: char)
    requires Unquoted(before) && (q == '\'' || q == '\"') && q !in body
    requires (body == [] || body[|body| - 1] != '\\')
    ensures var s := before + ([q] + body + [q]);
            StateAt(s, |s|) == StateAt(before, |before|)
  {
    var s := before + ([q] + body + [q]);
    CountsParentheses(before, |before|);
    StateOfPrefix(before, [q] + body + [q], |before|);
    QuotedPart(before, body, q, |body|);
    assert s[|s| - 1] == q;
    if body != [] { assert s[|s| - 2] == body[|body| - 1]; } else { assert s[|s| - 2] == q; }
  }

  lemma {:induction false} QuotedPart(before: string, body: string, q: char, i: nat)
    requires Unquoted(before) && (q == '\'' || q == '\"') && q !in body && i <= |body|
    ensures var s := before + ([q] + body + [q]);
            StateAt(s, |before| + 1 + i) == StateAt(before, |before|).(quote := Some(q))
  {
    var s := before + ([q] + body + [q]);
    CountsParentheses(before, |before|);
    StateOfPrefix(before, [q] + body + [q], |before|);
    if i == 0 {
      assert s[|before|] == q;
    } else {
      QuotedPart(before, body, q, i - 1);
      assert s[|before| + i] == body[i - 1];
    }
  }

  // ----- the loop -----

  method SplitMembers(members: string) returns (parts: seq<string>)
    ensures parts == Split(members)
  {
    hide IsCut, Split, FirstCut;
    parts := [];
    var depth, current, quote: Option<char> := 0, "", None;
    ghost var start := 0;
    var i := 0;
    assert members[0..] == members;
    while i < |members|
      invariant 0 <= start <= i <= |members|
      invariant current == members[start..i]
      invariant parts + Split(members[start..]) == Split(members)
      invariant Restarts(members, start)
      invariant forall j | 0 <= j < i - start :: !IsCut(members[start..], j)
      invariant StateAt(members, i) == Scan(depth, quote)
    {
      var character := members[i];
      var escaped := i > 0 && members[i - 1] == '\\';
      assert StateAt(members, i) == StateAt(members[start..], i - start);
      CutHere(members, start, i);
      assert current + [character] == members[start..i + 1];
      assert StateAt(members, i + 1) == Next(Scan(depth, quote), escaped, character);
      if quote.Some? {
        current := current + [character];
        if character == quote.value && !escaped {
          quote := None;
        }
      } else if character == '\'' || character == '\"' {
        quote := Some(character);
        current := current + [character];
      } else if character == '(' {
        depth := depth + 1;
        current := current + [character];
      } else if character == ')' {
        depth := depth - 1;
        current := current + [character];
      } else if character == ',' && depth == 0 {
        CutOff(members, start, i);
        parts := parts + [current];
        current := [];
        start := i + 1;
      } else {
        current := current + [character];
      }
      i := i + 1;
    }
    LastPart(members[start..]);
    assert current == members[start..];
    parts := parts + [current];
  }

  /** The scanner may start over at `start`. */
  ghost predicate Restarts(s: string, start: nat)
    requires start <= |s|
  {
    forall j | start <= j <= |s| :: StateAt(s, j) == StateAt(s[start..], j - start)
  }

  lemma LastPart(s: string)
    requires forall j | 0 <= j < |s| :: !IsCut(s, j)
    ensures Split(s) == [s]
  {
    FirstCutIs(s, |s|);
  }

  lemma CutHere(s: string, start: nat, i: nat)
    requires start <= i < |s| && StateAt(s, i) == StateAt(s[start..], i - start)
    ensures IsCut(s[start..], i - start) <==> s[i] == ',' && StateAt(s, i) == TOP
  {
  }

  lemma CutOff(s: string, start: nat, i: nat)
    requires start <= i < |s| && IsCut(s[start..], i - start)
    requires forall j | 0 <= j < i - start :: !IsCut(s[start..], j)
    requires Restarts(s, start)
    ensures Split(s[start..]) == [s[start..i]] + Split(s[i + 1..])
    ensures Restarts(s, i + 1)
  {
    FirstCutIs(s[start..], i - start);
    assert s[start..][..i - start] == s[start..i];
    assert s[start..][i - start + 1..] == s[i + 1..];
    assert StateAt(s, i) == TOP;
    forall j | i + 1 <= j <= |s| ensures StateAt(s, j) == StateAt(s[i + 1..], j - i - 1) {
      StateAfterCut(s, i, j - i - 1);
    }
  }
}
