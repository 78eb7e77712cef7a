/** The window of earlier turns that is put into a prompt: newest turns first, whole turns only. */
module ConversationHistory {
  import opened Outcomes

  datatype Turn = Turn(question: string, answer: Option<string>)

  function Rendered(t: Turn): string
    requires t.answer.Some?
  {
    "User: " + t.question + "\nAssistant: " + t.answer.value + "\n\n"
  }

  /** Turns without an answer, and turns that exceed the limit alone, are passed over. */
  predicate Eligible(t: Turn, maximum: nat) { t.answer.Some? && |Rendered(t)| <= maximum }

  function Candidate(t: Turn, maximum: nat): seq<string> {
    if Eligible(t, maximum) then [Rendered(t)] else []
  }

  /** The eligible turns in chronological order, each as text. */
  function Candidates(turns: seq<Turn>, maximum: nat): seq<string> {
    if turns == [] then [] else Candidate(turns[0], maximum) + Candidates(turns[1..], maximum)
  }

  function Joined(texts: seq<string>): string {
    if texts == [] then "" else texts[0] + Joined(texts[1..])
  }

  function JoinedBackwards(texts: seq<string>): string {
    if texts == [] then "" else texts[|texts| - 1] + JoinedBackwards(texts[..|texts| - 1])
  }

  predicate IsSpace(c: char) {
    || '\t' <= c <= '\r' || '\U{1C}' <= c <= ' ' || c == '\U{85}' || c == '\U{A0}' || c == '\U{1680}'
    || '\U{2000}' <= c <= '\U{200A}' || c in {'\U{2028}', '\U{2029}', '\U{202F}', '\U{205F}', '\U{3000}'}
  }

  function StripLeft(s: string): (r: string)
    ensures |r| <= |s|
    ensures s != [] && !IsSpace(s[0]) ==> r == s
  {
    if s != [] && IsSpace(s[0]) then StripLeft(s[1..]) else s
  }

  function StripRight(s: string): (r: string)
    ensures r <= s
    ensures r != [] ==> !IsSpace(r[|r| - 1])
  {
    if s != [] && IsSpace(s[|s| - 1]) then StripRight(s[..|s| - 1]) else s
  }

  function Strip(s: string): string { StripRight(StripLeft(s)) }

  /** From `k` on, the texts fit, and from no earlier place on do they. */
  ghost predicate LongestFittingSuffix(texts: seq<string>, k: nat, maximum: nat) {
    k <= |texts| && forall j | 0 <= j <= |texts| :: |Joined(texts[j..])| <= maximum <==> k <= j
  }

  lemma {:induction false} CandidatesSplit(turns: seq<Turn>, maximum: nat, i: nat)
    requires i <= |turns|
    ensures Candidates(turns, maximum) == Candidates(turns[..i], maximum) + Candidates(turns[i..], maximum)
  {
    hide Candidate;
    if i == 0 {
      assert turns[..0] == [] && turns[0..] == turns;
    } else {
      CandidatesSplit(turns[1..], maximum, i - 1);
      assert turns[..i][1..] == turns[1..][..i - 1] && turns[i..] == turns[1..][i - 1..];
    }
  }

  /** One step of the loop: the candidates of a longer part, and where they end in all of them. */
  lemma OneTurnEarlier(turns: seq<Turn>, maximum: nat, i: nat, k: nat)
    requires i < |turns| && k <= |Candidates(turns, maximum)|
    requires Candidates(turns, maximum)[k..] == Candidates(turns[i + 1..], maximum)
    ensures var own := Candidate(turns[i], maximum);
            && k >= |own|
            && Candidates(turns, maximum)[k - |own|..] == Candidates(turns[i..], maximum)
            && Candidates(turns[i..], maximum) == own + Candidates(turns[i + 1..], maximum)
  {
    hide Candidate;
    assert turns[i..][1..] == turns[i + 1..];
    CandidatesSplit(turns, maximum, i);
    assert |Candidates(turns[..i], maximum)| + |Candidates(turns[i..], maximum)| == |Candidates(turns, maximum)|;
  }

  lemma {:induction false} LongerSuffixIsLonger(texts: seq<string>, j: nat, k: nat)
    requires j <= k <= |texts|
    ensures |Joined(texts[j..])| >= |Joined(texts[k..])|
    decreases k - j
  {
    if j < k {
      assert texts[j..][1..] == texts[j + 1..];
      LongerSuffixIsLonger(texts, j + 1, k);
    }
  }

  /** A suffix that fits and that its next older text would overflow is the longest that fits. */
  lemma OverflowIsBoundary(texts: seq<string>, k: nat, maximum: nat)
    requires k <= |texts| && |Joined(texts[k..])| <= maximum
    requires k > 0 ==> |Joined(texts[k - 1..])| > maximum
    ensures LongestFittingSuffix(texts, k, maximum)
  {
    forall j | 0 <= j <= |texts| ensures |Joined(texts[j..])| <= maximum <==> k <= j {
      if k <= j { LongerSuffixIsLonger(texts, k, j); } else { LongerSuffixIsLonger(texts, j, k - 1); }
    }
  }

  lemma JoinedCons(text: string, rest: seq<string>)
    ensures Joined([text] + rest) == text + Joined(rest)
  {
    assert ([text] + rest)[1..] == rest;
  }

  lemma JoinedBackwardsSnoc(texts: seq<string>, text: string)
    ensures JoinedBackwards(texts + [text]) == text + JoinedBackwards(texts)
  {
    assert (texts + [text])[..|texts|] == texts;
  }

  lemma StartsEmpty(maximum: nat)
    ensures Candidates([], maximum) == [] && JoinedBackwards([]) == "" && Joined([]) == ""
  {
  }

  lemma {:induction false} StripRightKeeps(a: string, b: string)
    requires a != [] && !IsSpace(a[|a| - 1])
    ensures a <= StripRight(a + b)
    decreases |b|
  {
    if b == [] {
      assert a + b == a;
    } else if IsSpace(b[|b| - 1]) {
      assert (a + b)[..|a + b| - 1] == a + b[..|b| - 1];
      StripRightKeeps(a, b[..|b| - 1]);
    }
  }

  lemma StripShortens(s: string)
    ensures |Strip(s)| <= |s|
  {
  }

  /** Stripping takes nothing from the front: the oldest selected turn keeps its question. */
  lemma OldestQuestionSurvives(t: Turn, newer: string)
    requires t.answer.Some?
    ensures "User: " + t.question + "\nAssistant:" <= Strip(Rendered(t) + newer)
  {
    var head := "User: " + t.question + "\nAssistant:";
    var rest := " " + t.answer.value + "\n\n" + newer;
    assert Rendered(t) + newer == head + rest;
    assert (head + rest)[0] == 'U';
    assert StripLeft(head + rest) == head + rest;
    StripRightKeeps(head, rest);
  }

  // ------------------------------------------------------------------------- what can be read

  ghost predicate AllSpace(s: string) { forall c | c in s :: IsSpace(c) }

  /** Stripping takes white space from both ends, and all of it. */
  lemma StripMeans(s: string) returns (front: string, back: string)
    ensures s == front + Strip(s) + back && AllSpace(front) && AllSpace(back)
    ensures Strip(s) != "" ==> !IsSpace(Strip(s)[0]) && !IsSpace(Strip(s)[|Strip(s)| - 1])
  {
    var left := StripLeft(s);
    front := LeftPart(s);
    back := RightPart(left);
    assert s == front + (Strip(s) + back);
    if Strip(s) != "" { assert Strip(s)[0] == left[0]; }
  }

  lemma {:induction false} LeftPart(s: string) returns (front: string)
    ensures s == front + StripLeft(s) && AllSpace(front)
    ensures StripLeft(s) != "" ==> !IsSpace(StripLeft(s)[0])
  {
    if s != [] && IsSpace(s[0]) {
      front := LeftPart(s[1..]);
      front := [s[0]] + front;
    } else {
      front := "";
    }
  }

  lemma {:induction false} RightPart(s: string) returns (back: string)
    ensures s == StripRight(s) + back && AllSpace(back)
  {
    if s != [] && IsSpace(s[|s| - 1]) {
      back := RightPart(s[..|s| - 1]);
      back := back + [s[|s| - 1]];
    } else {
      back := "";
    }
  }

  /** Question and answer of the turn stand in the text; white space that ends the answer may be gone. */
  ghost predicate Tells(text: string, question: string, answer: string) {
    exists front, back :: text == front + StripRight("User: " + question + "\nAssistant: " + answer) + back
  }

  lemma {:induction false} JoinedAppend(a: seq<string>, b: seq<string>)
    ensures Joined(a + b) == Joined(a) + Joined(b)
  {
    if a == [] {
      assert a + b == b;
    } else {
      JoinedAppend(a[1..], b);
      assert (a + b)[1..] == a[1..] + b && (a + b)[0] == a[0];
      assert a[0] + (Joined(a[1..]) + Joined(b)) == (a[0] + Joined(a[1..])) + Joined(b);
    }
  }

  lemma {:induction false} CandidatesStart(turns: seq<Turn>, maximum: nat)
    ensures Joined(Candidates(turns, maximum)) == "" || Joined(Candidates(turns, maximum))[0] == 'U'
  {
    if turns != [] {
      CandidatesStart(turns[1..], maximum);
      JoinedAppend(Candidate(turns[0], maximum), Candidates(turns[1..], maximum));
      if Eligible(turns[0], maximum) {
        assert [Rendered(turns[0])][1..] == [];
        assert Rendered(turns[0])[0] == 'U';
      }
    }
  }

  /** Every turn from `p` on that has an answer and fits alone is told in the window. */
  lemma WindowTells(turns: seq<Turn>, maximum: nat, p: nat, i: nat)
    requires p <= i < |turns| && Eligible(turns[i], maximum)
    ensures Tells(Strip(Joined(Candidates(turns[p..], maximum))), turns[i].question, turns[i].answer.value)
  {
    var window := turns[p..];
    CandidatesSplit(window, maximum, i - p);
    var before, after := Candidates(window[..i - p], maximum), Candidates(turns[i + 1..], maximum);
    assert window[i - p..] == turns[i..] && turns[i..][1..] == turns[i + 1..];
    assert Candidates(turns[i..], maximum) == [Rendered(turns[i])] + after;
    var all := Candidates(window, maximum);
    assert all == before + ([Rendered(turns[i])] + after);
    JoinedAppend(before, [Rendered(turns[i])] + after);
    JoinedCons(Rendered(turns[i]), after);
    CandidatesStart(window[..i - p], maximum);
    hide Candidates;
    TurnInText(Joined(before), turns[i].question, turns[i].answer.value, Joined(after));
    var head := "User: " + turns[i].question + "\nAssistant: " + turns[i].answer.value;
    assert Rendered(turns[i]) == head + "\n\n";
    assert Joined(all) == Joined(before) + (head + "\n\n" + Joined(after));
  }

  lemma TurnInText(front: string, question: string, answer: string, back: string)
    requires front == "" || front[0] == 'U'
    ensures Tells(Strip(front + ("User: " + question + "\nAssistant: " + answer + "\n\n" + back)), question, answer)
  {
    var head := "User: " + question + "\nAssistant: " + answer;
    var spaces := HeadKeeps(question, answer);
    KeptInside(front, StripRight(head), spaces + "\n\n" + back);
    Regroup(front, StripRight(head), spaces, "\n\n", back);
    hide Strip;
    hide StripRight;
  }

  lemma Regroup(front: string, kept: string, spaces: string, gap: string, back: string)
    ensures front + (kept + spaces + gap + back) == front + kept + (spaces + gap + back)
  {
  }

  lemma HeadKeeps(question: string, answer: string) returns (spaces: string)
    ensures var head := "User: " + question + "\nAssistant: " + answer;
            && head == StripRight(head) + spaces && "User" <= StripRight(head)
            && !IsSpace(StripRight(head)[|StripRight(head)| - 1])
  {
    var rest := ": " + question + "\nAssistant: " + answer;
    var head := "User: " + question + "\nAssistant: " + answer;
    assert "User" + rest == head;
    StripRightKeeps("User", rest);
    spaces := RightPart(head);
  }

  /** What ends without white space survives stripping, whatever follows. */
  lemma KeptInside(front: string, kept: string, rest: string)
    requires kept != "" && kept[0] == 'U' && !IsSpace(kept[|kept| - 1]) && (front == "" || front[0] == 'U')
    ensures exists back :: Strip(front + kept + rest) == front + kept + back
  {
    var first := front + kept;
    assert first[0] == 'U' && first[|first| - 1] == kept[|kept| - 1];
    StripRightKeeps(first, rest);
    var text := first + rest;
    assert text[0] == 'U';
    assert StripLeft(text) == text;
    var stripped := StripRight(text);
    assert stripped == first + stripped[|first|..];
  }

  /** `_format_conversation_history`: the longest run of newest eligible turns that fits, in
      chronological order. */
  method FormatConversationHistory(turns: seq<Turn>, maximum: nat) returns (text: string)
    ensures exists k: nat :: LongestFittingSuffix(Candidates(turns, maximum), k, maximum)
                        && text == Strip(Joined(Candidates(turns, maximum)[k..]))
    ensures |text| <= maximum
    ensures exists p: nat :: p <= |turns| && text == Strip(Joined(Candidates(turns[p..], maximum)))
                        && forall i | p <= i < |turns| && turns[i].answer.Some?
                             && |"User: " + turns[i].question + "\nAssistant: " + turns[i].answer.value + "\n\n"| <= maximum ::
                             Tells(text, turns[i].question, turns[i].answer.value)
  {
    hide Tells;
    assert forall t: Turn | t.answer.Some? :: Rendered(t) == "User: " + t.question + "\nAssistant: " + t.answer.value + "\n\n";
    hide Candidates;
    hide Rendered;
    hide Joined;
    hide JoinedBackwards;
    hide Strip;
    StartsEmpty(maximum);
    var selected: seq<string> := [];
    var used := 0;
    var i := |turns|;
    ghost var all := Candidates(turns, maximum);
    ghost var k: nat := |all|;
    assert turns[i..] == [] && all[k..] == [];
    while i > 0
      invariant i <= |turns| && k <= |all| && used <= maximum
      invariant all[k..] == Candidates(turns[i..], maximum)
      invariant JoinedBackwards(selected) == Joined(all[k..]) && used == |Joined(all[k..])|
    {
      var turn := turns[i - 1];
      OneTurnEarlier(turns, maximum, i - 1, k);
      if turn.answer.Some? {
        var rendered := Rendered(turn);
        if |rendered| <= maximum {
          assert Candidate(turn, maximum) == [rendered];
          JoinedCons(rendered, all[k..]);
          if used + |rendered| > maximum {
            break;
          }
          JoinedBackwardsSnoc(selected, rendered);
          selected := selected + [rendered];
          used := used + |rendered|;
          k := k - 1;
        }
      }
      i := i - 1;
    }
    if i == 0 {
      assert turns[0..] == turns && |all[k..]| == |all|;
    }
    OverflowIsBoundary(all, k, maximum);
    text := Strip(JoinedBackwards(selected));
    StripShortens(Joined(all[k..]));
    forall j | i <= j < |turns| && Eligible(turns[j], maximum)
      ensures Tells(text, turns[j].question, turns[j].answer.value)
    {
      WindowTells(turns, maximum, i, j);
    }
  }
}
