/** The evidence text that is put into a prompt, the accounting of what it leaves out, and the lists
    of documents that a prompt may show beside it.
 */
module EvidenceContext {
  import Identifiers

  datatype Hit = Hit(sourceId: string, chunkId: string, scoreType: string, scoreText: string, uri: string, text: string)

  datatype Citation = Citation(sourceId: string, chunkId: string, scoreType: string, scoreText: string, uri: string)

  const SEPARATOR := "\n\n---\n\n"
  const NO_EVIDENCE := "No relevant evidence was retrieved."

  function Block(h: Hit): string {
    "[source_id=" + h.sourceId + "; chunk_id=" + h.chunkId + "; " + h.scoreType + "=" + h.scoreText + "]\n" + h.text
  }

  function Cite(h: Hit): Citation { Citation(h.sourceId, h.chunkId, h.scoreType, h.scoreText, h.uri) }

  function Ids(hits: seq<Hit>): (r: seq<string>)
    ensures |r| == |hits|
  {
    seq(|hits|, i requires 0 <= i < |hits| => hits[i].chunkId)
  }

  function Citations(hits: seq<Hit>): seq<Citation> {
    seq(|hits|, i requires 0 <= i < |hits| => Cite(hits[i]))
  }

  function Blocks(hits: seq<Hit>): seq<string> {
    if hits == [] then [] else [Block(hits[0])] + Blocks(hits[1..])
  }

  /** What a budget leaves of the blocks: whole ones, then at most one that is cut. */
  function Excerpts(hits: seq<Hit>, maximum: nat): (r: seq<string>)
    ensures |r| <= |hits|
  {
    if hits == [] then []
    else if |Block(hits[0])| > maximum then [Block(hits[0])[..maximum]]
    else [Block(hits[0])] + Excerpts(hits[1..], maximum - |Block(hits[0])|)
  }

  function Join(texts: seq<string>): string {
    if texts == [] then "" else if |texts| == 1 then texts[0] else texts[0] + SEPARATOR + Join(texts[1..])
  }

  function Total(texts: seq<string>): nat {
    if texts == [] then 0 else |texts[0]| + Total(texts[1..])
  }

  function Evidence(hits: seq<Hit>, maximum: nat): string {
    var joined := Join(Excerpts(hits, maximum));
    if joined == "" then NO_EVIDENCE else joined
  }

  // ---------------------------------------------------------------------------- numbered lists

  function Lines(texts: seq<string>): string {
    if texts == [] then "" else if |texts| == 1 then texts[0] else texts[0] + "\n" + Lines(texts[1..])
  }

  /** One line of `_retrieval_trace_summary`. */
  function TraceLine(index: nat, h: Hit): string {
    Identifiers.Decimal(index) + ". source_id=" + h.sourceId + "; chunk_id=" + h.chunkId + "; " + h.scoreType + "=" + h.scoreText
  }

  /** One line of `_citations_text`. */
  function CitationLine(index: nat, c: Citation): string {
    Identifiers.Decimal(index) + ". source_id=" + c.sourceId + "; chunk_id=" + c.chunkId + "; " + c.scoreType + "=" + c.scoreText
    + "; uri=" + c.uri
  }

  function TraceSummary(hits: seq<Hit>): string {
    Lines(seq(|hits|, i requires 0 <= i < |hits| => TraceLine(i + 1, hits[i])))
  }

  function CitationsText(citations: seq<Citation>): string {
    Lines(seq(|citations|, i requires 0 <= i < |citations| => CitationLine(i + 1, citations[i])))
  }

  /** The hits that a budget leaves in the context. */
  function Cited(hits: seq<Hit>, maximum: nat): seq<Hit> { hits[..|Excerpts(hits, maximum)|] }

  lemma {:induction false} LineInside(texts: seq<string>, i: nat) returns (front: string, back: string)
    requires i < |texts|
    ensures Lines(texts) == front + texts[i] + back
    ensures (front == "" || front[|front| - 1] == '\n') && (back == "" || back[0] == '\n')
    decreases |texts|
  {
    if |texts| == 1 {
      front, back := "", "";
    } else if i == 0 {
      front, back := "", "\n" + Lines(texts[1..]);
    } else {
      front, back := LineInside(texts[1..], i - 1);
      var all := texts[0] + "\n" + front;
      assert Lines(texts) == texts[0] + "\n" + (front + texts[i] + back);
      assert texts[0] + "\n" + (front + texts[i] + back) == all + texts[i] + back;
      assert all[|all| - 1] == '\n';
      front := all;
    }
  }

  /** Each citation has its numbered line in the list of citations. */
  lemma CitationIsListed(citations: seq<Citation>, i: nat) returns (front: string, number: string, back: string)
    requires i < |citations|
    ensures Identifiers.IsNumber(number, i + 1, 0)
    ensures var c := citations[i];
            CitationsText(citations) ==
            front + (number + ". source_id=" + c.sourceId + "; chunk_id=" + c.chunkId + "; " + c.scoreType + "=" + c.scoreText
                     + "; uri=" + c.uri) + back
    ensures (front == "" || front[|front| - 1] == '\n') && (back == "" || back[0] == '\n')
  {
    number := Identifiers.Decimal(i + 1);
    Identifiers.DecimalIsNumber(i + 1);
    hide Identifiers.IsNumber;
    front, back := LineInside(seq(|citations|, j requires 0 <= j < |citations| => CitationLine(j + 1, citations[j])), i);
  }

  /** Each hit has its numbered line in the trace summary. */
  lemma HitIsListed(hits: seq<Hit>, i: nat) returns (front: string, number: string, back: string)
    requires i < |hits|
    ensures Identifiers.IsNumber(number, i + 1, 0)
    ensures var h := hits[i];
            TraceSummary(hits) ==
            front + (number + ". source_id=" + h.sourceId + "; chunk_id=" + h.chunkId + "; "
                     + h.scoreType + "=" + h.scoreText) + back
    ensures (front == "" || front[|front| - 1] == '\n') && (back == "" || back[0] == '\n')
  {
    number := Identifiers.Decimal(i + 1);
    Identifiers.DecimalIsNumber(i + 1);
    hide Identifiers.IsNumber;
    front, back := LineInside(seq(|hits|, j requires 0 <= j < |hits| => TraceLine(j + 1, hits[j])), i);
  }

  // ------------------------------------------------------------------------------ the evidence

  function Min(a: nat, b: nat): nat { if a < b then a else b }

  lemma OneHitLater(hits: seq<Hit>, i: nat, remaining: nat)
    requires i < |hits|
    ensures Ids(hits[..i + 1]) == Ids(hits[..i]) + [hits[i].chunkId]
    ensures Citations(hits[..i + 1]) == Citations(hits[..i]) + [Cite(hits[i])]
    ensures Ids(hits) == Ids(hits[..i + 1]) + Ids(hits[i + 1..])
    ensures var block := Block(hits[i]);
            Excerpts(hits[i..], remaining) ==
              if |block| <= remaining then [block] + Excerpts(hits[i + 1..], remaining - |block|) else [block[..remaining]]
  {
    hide Block;
    hide Cite;
    assert hits[i..][1..] == hits[i + 1..];
  }

  lemma NoHitsLeft(hits: seq<Hit>, remaining: nat)
    ensures Excerpts(hits[|hits|..], remaining) == [] && hits[..|hits|] == hits && hits[0..] == hits
    ensures Ids([]) == [] && Citations([]) == [] && Blocks([]) == []
  {
  }

  /** `_build_context`. Cited and omitted identifiers together are the hits in order. */
  method BuildContext(hits: seq<Hit>, maximum: nat)
    returns (evidence: string, citations: seq<Citation>, cited: seq<string>, omitted: seq<string>)
    ensures evidence == Evidence(hits, maximum)
    ensures cited + omitted == Ids(hits)
    ensures |cited| == |Excerpts(hits, maximum)| && citations == Citations(hits[..|cited|])
    ensures forall i | 0 <= i < |citations| ::
              && citations[i].sourceId == hits[i].sourceId && citations[i].chunkId == hits[i].chunkId
              && citations[i].scoreType == hits[i].scoreType && citations[i].scoreText == hits[i].scoreText
              && citations[i].uri == hits[i].uri
    ensures forall i | 0 <= i < |cited| - 1 :: Tells(evidence, hits[i])
    ensures Total(Blocks(hits)) <= maximum ==> omitted == [] && forall i | 0 <= i < |hits| :: Tells(evidence, hits[i])
  {
    hide Tells;
    hide Total;
    hide Blocks;
    hide Block;
    hide Cite;
    hide Join;
    hide Ids;
    hide Citations;
    hide Excerpts;
    NoHitsLeft(hits, maximum);
    var used, blocks, i := 0, [], 0;
    citations, cited, omitted := [], [], [];
    while i < |hits|
      invariant i <= |hits| && used <= maximum && |blocks| == i
      invariant cited == Ids(hits[..i]) && citations == Citations(hits[..i]) && omitted == []
      invariant blocks + Excerpts(hits[i..], maximum - used) == Excerpts(hits, maximum)
    {
      OneHitLater(hits, i, maximum - used);
      var block := Block(hits[i]);
      var remaining := maximum - used;
      var chosen := if |block| <= remaining then block else block[..remaining];
      blocks := blocks + [chosen];
      used := used + |chosen|;
      citations := citations + [Cite(hits[i])];
      cited := cited + [hits[i].chunkId];
      i := i + 1;
      if |chosen| < |block| {
        omitted := Ids(hits[i..]);
        break;
      }
    }
    if i == |hits| && omitted == [] { NoHitsLeft(hits, maximum - used); }
    assert blocks == Excerpts(hits, maximum);
    evidence := Join(blocks);
    if evidence == "" { evidence := NO_EVIDENCE; }
    forall j | 0 <= j < |cited| && (j < |cited| - 1 || Total(Blocks(hits)) <= maximum) ensures Tells(evidence, hits[j]) {
      HitIsTold(hits, maximum, j);
    }
    if Total(Blocks(hits)) <= maximum { AllAreCited(hits, maximum); }
    CitationFields(hits[..|cited|]);
  }

  lemma CitationFields(hits: seq<Hit>)
    ensures |Citations(hits)| == |hits|
    ensures forall i | 0 <= i < |hits| ::
              var cited := Citations(hits)[i];
              && cited.sourceId == hits[i].sourceId && cited.chunkId == hits[i].chunkId
              && cited.scoreType == hits[i].scoreType && cited.scoreText == hits[i].scoreText && cited.uri == hits[i].uri
  {
  }

  // -------------------------------------------------------------------------- what can be read

  /** The whole text of the hit stands in the evidence, behind the line that names it. */
  ghost predicate Tells(evidence: string, h: Hit) {
    exists front, back ::
      evidence == front + ("[source_id=" + h.sourceId + "; chunk_id=" + h.chunkId + "; "
                           + h.scoreType + "=" + h.scoreText + "]\n" + h.text) + back
  }

  lemma {:induction false} JoinedInside(texts: seq<string>, i: nat) returns (front: string, back: string)
    requires i < |texts|
    ensures Join(texts) == front + texts[i] + back
    decreases |texts|
  {
    if |texts| == 1 {
      front, back := "", "";
    } else if i == 0 {
      front, back := "", SEPARATOR + Join(texts[1..]);
    } else {
      front, back := JoinedInside(texts[1..], i - 1);
      var all := texts[0] + SEPARATOR + front;
      assert Join(texts) == texts[0] + SEPARATOR + (front + texts[i] + back);
      assert texts[0] + SEPARATOR + (front + texts[i] + back) == all + texts[i] + back;
      front := all;
    }
  }

  lemma {:induction false} WholeBlocks(hits: seq<Hit>, i: nat)
    requires i < |hits|
    ensures |Blocks(hits)| == |hits| && Blocks(hits)[i] == Block(hits[i])
  {
    if |hits| > 1 { WholeBlocks(hits[1..], if i > 0 then i - 1 else 0); }
  }

  /** A hit that is not cut is told. */
  lemma HitIsTold(hits: seq<Hit>, maximum: nat, i: nat)
    requires i < |Excerpts(hits, maximum)|
    requires i + 1 < |Excerpts(hits, maximum)| || Total(Blocks(hits)) <= maximum
    ensures Tells(Evidence(hits, maximum), hits[i])
  {
    var cited := Excerpts(hits, maximum);
    if i + 1 < |cited| {
      OnlyLastIsCut(hits, maximum, i);
    } else {
      EnoughBudgetKeepsAll(hits, maximum);
      WholeBlocks(hits, i);
    }
    var front, back := JoinedInside(cited, i);
    assert cited[i] == Block(hits[i]);
    assert Block(hits[i]) != "";
    assert Join(cited) != "";
  }

  lemma AllAreCited(hits: seq<Hit>, maximum: nat)
    requires Total(Blocks(hits)) <= maximum
    ensures |Excerpts(hits, maximum)| == |hits|
  {
    EnoughBudgetKeepsAll(hits, maximum);
    if hits != [] { WholeBlocks(hits, 0); }
  }

  // ------------------------------------------------------------------------------ accounting

  /** The budget is used up whenever there is enough text, and never exceeded. */
  lemma {:induction false} BudgetIsUsed(hits: seq<Hit>, maximum: nat)
    ensures Total(Excerpts(hits, maximum)) == Min(maximum, Total(Blocks(hits)))
  {
    if hits != [] && |Block(hits[0])| <= maximum {
      var rest := maximum - |Block(hits[0])|;
      BudgetIsUsed(hits[1..], rest);
      assert Excerpts(hits, maximum)[1..] == Excerpts(hits[1..], rest);
    }
  }

  lemma {:induction false} JoinLength(texts: seq<string>)
    requires texts != []
    ensures |Join(texts)| == Total(texts) + 7 * (|texts| - 1)
  {
    if |texts| > 1 { JoinLength(texts[1..]); }
  }

  /** Every block but the last is whole; the last is a first part of its block. */
  lemma {:induction false} OnlyLastIsCut(hits: seq<Hit>, maximum: nat, i: nat)
    requires i < |Excerpts(hits, maximum)|
    ensures Excerpts(hits, maximum)[i] <= Block(hits[i])
    ensures i + 1 < |Excerpts(hits, maximum)| ==> Excerpts(hits, maximum)[i] == Block(hits[i])
    ensures |Excerpts(hits, maximum)| < |hits| && i + 1 == |Excerpts(hits, maximum)| ==>
              Excerpts(hits, maximum)[i] != Block(hits[i])
    decreases |hits|
  {
    if |Block(hits[0])| <= maximum {
      var rest := Excerpts(hits[1..], maximum - |Block(hits[0])|);
      if i > 0 {
        OnlyLastIsCut(hits[1..], maximum - |Block(hits[0])|, i - 1);
      } else if rest == [] {
        assert hits[1..] == [];
      }
    }
  }

  /** Evidence under a smaller budget is a first part of the evidence under a larger one, and no
      citation is lost by enlarging it. */
  lemma {:induction false} LargerBudgetExtends(hits: seq<Hit>, maximum: nat, larger: nat)
    requires maximum <= larger
    ensures |Excerpts(hits, maximum)| <= |Excerpts(hits, larger)|
    ensures Join(Excerpts(hits, maximum)) <= Join(Excerpts(hits, larger))
  {
    if hits != [] {
      var first := Block(hits[0]);
      if |first| <= maximum {
        var short, long := Excerpts(hits[1..], maximum - |first|), Excerpts(hits[1..], larger - |first|);
        LargerBudgetExtends(hits[1..], maximum - |first|, larger - |first|);
        assert Excerpts(hits, maximum)[1..] == short && Excerpts(hits, larger)[1..] == long;
        assert short == [] <==> hits[1..] == [];
        JoinCons(first, short);
        JoinCons(first, long);
      } else if |first| <= larger {
        JoinCons(first, Excerpts(hits[1..], larger - |first|));
      }
    }
  }

  lemma JoinCons(first: string, rest: seq<string>)
    ensures Join([first] + rest) == if rest == [] then first else first + SEPARATOR + Join(rest)
  {
    assert ([first] + rest)[1..] == rest;
  }

  lemma {:induction false} EnoughBudgetKeepsAll(hits: seq<Hit>, maximum: nat)
    requires Total(Blocks(hits)) <= maximum
    ensures Excerpts(hits, maximum) == Blocks(hits)
  {
    if hits != [] {
      assert Blocks(hits)[1..] == Blocks(hits[1..]);
      EnoughBudgetKeepsAll(hits[1..], maximum - |Block(hits[0])|);
    }
  }

  /** The fallback text stands exactly for no hits or no budget. */
  lemma FallbackExactly(hits: seq<Hit>, maximum: nat)
    ensures Join(Excerpts(hits, maximum)) == "" <==> hits == [] || maximum == 0
  {
    BudgetIsUsed(hits, maximum);
    if hits != [] {
      assert |Block(hits[0])| > 0;
      JoinLength(Excerpts(hits, maximum));
      assert Excerpts(hits, maximum) != [];
      assert Total(Blocks(hits)) > 0;
    }
  }

  /** With hits and a positive budget, evidence is a first part of the evidence without a limit
      and exceeds the budget by the separators at most. */
  lemma EvidenceIsPrefix(hits: seq<Hit>, maximum: nat)
    requires hits != [] && maximum > 0
    ensures Evidence(hits, maximum) <= Join(Blocks(hits))
    ensures |Evidence(hits, maximum)| == Min(maximum, Total(Blocks(hits))) + 7 * (|Excerpts(hits, maximum)| - 1)
  {
    FallbackExactly(hits, maximum);
    BudgetIsUsed(hits, maximum);
    JoinLength(Excerpts(hits, maximum));
    var enough := maximum + Total(Blocks(hits));
    EnoughBudgetKeepsAll(hits, enough);
    LargerBudgetExtends(hits, maximum, enough);
  }

  /** Some of the first hits, not all of them, have blocks that add up to the budget. */
  ghost predicate FirstBlocksFill(hits: seq<Hit>, maximum: nat) {
    exists k :: 0 <= k < |hits| && Total(Blocks(hits[..k])) == maximum
  }

  lemma BlocksOfFirst(hits: seq<Hit>, k: nat)
    requires 0 < k <= |hits|
    ensures Total(Blocks(hits[..k])) == |Block(hits[0])| + Total(Blocks(hits[1..][..k - 1]))
  {
    hide Block;
    assert hits[..k][1..] == hits[1..][..k - 1];
  }

  lemma FillStep(hits: seq<Hit>, maximum: nat)
    requires hits != []
    ensures FirstBlocksFill(hits, maximum) <==>
              || maximum == 0
              || (|Block(hits[0])| <= maximum && FirstBlocksFill(hits[1..], maximum - |Block(hits[0])|))
  {
    hide Block;
    hide Total;
    var first, rest := |Block(hits[0])|, hits[1..];
    assert Total(Blocks(hits[..0])) == 0 by { assert hits[..0] == []; NothingTotals(); }
    if k :| 0 < k < |hits| && Total(Blocks(hits[..k])) == maximum {
      BlocksOfFirst(hits, k);
      assert Total(Blocks(rest[..k - 1])) == maximum - first;
    }
    if first <= maximum && FirstBlocksFill(rest, maximum - first) {
      var k :| 0 <= k < |rest| && Total(Blocks(rest[..k])) == maximum - first;
      BlocksOfFirst(hits, k + 1);
      assert Total(Blocks(hits[..k + 1])) == maximum;
    }
  }

  lemma NothingTotals()
    ensures Total(Blocks([])) == 0
  {
  }

  /** A hit is cited with no text at all exactly when the blocks of some first hits use up the
      budget. */
  lemma {:induction false} CitedWithoutText(hits: seq<Hit>, maximum: nat)
    requires hits != []
    ensures var cited := Excerpts(hits, maximum); cited[|cited| - 1] == "" <==> FirstBlocksFill(hits, maximum)
  {
    hide FirstBlocksFill;
    FillStep(hits, maximum);
    BlockHasText(hits[0]);
    hide Block;
    var first := |Block(hits[0])|;
    if first <= maximum && |hits| > 1 {
      CitedWithoutText(hits[1..], maximum - first);
    } else if first <= maximum {
      NothingFills(hits[1..], maximum - first);
    }
  }

  lemma BlockHasText(h: Hit)
    ensures Block(h) != ""
  {
  }

  lemma NothingFills(hits: seq<Hit>, maximum: nat)
    requires hits == []
    ensures !FirstBlocksFill(hits, maximum)
  {
  }

  /** Concretely: a budget that the first block fills cites the second hit with no text. */
  lemma SecondHitWithoutText()
    ensures var hits := [Hit("s", "a", "x", "1", "u", ""), Hit("s", "b", "x", "1", "u", "t")];
            var cited := Excerpts(hits, |Block(hits[0])|);
            |cited| == 2 && cited[1] == ""
  {
    var hits := [Hit("s", "a", "x", "1", "u", ""), Hit("s", "b", "x", "1", "u", "t")];
    assert hits[1..] == [hits[1]];
    assert Excerpts(hits, |Block(hits[0])|) == [Block(hits[0])] + Excerpts(hits[1..], 0);
  }
}
