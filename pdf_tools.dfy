/**
 * `PDFAnalyzer`: the report's text, its five-sentence chunks and the file
 * paths it mentions, with the queries the document collector runs on them.
 * PDF extraction and the two regular expressions (the sentence split and the
 * path search) are outside the model: their results are inputs.
 */
module PdfTools {
  import opened Wrappers
  import opened Text
  import opened Dicts
  import Seqs

  /** One chunk: `{"id": "chunk_<n>", "text": ...}`. */
  datatype Chunk = Chunk(id: string, text: string)

  /**
   * What ingesting the PDF gave: there is no file at the path; the import or
   * the extraction raised (caught, nothing is stored); or the text of each
   * page, the sentences `re.split(r'[.!?]\s+', text)` cuts the joined text
   * into, and the deduplicated path matches.
   */
  datatype PdfSource =
    | NoFile
    | IngestFailed
    | Extracted(pages: seq<string>, sentences: seq<string>, paths: seq<string>)

  const ChunkSize: nat := 5

  /** The sentences of group `g`: `sentences[5g : 5g + 5]`. */
  function Group(sentences: seq<string>, g: nat): seq<string>
    requires ChunkSize * g < |sentences|
  {
    var lo := ChunkSize * g;
    sentences[lo..if lo + ChunkSize <= |sentences| then lo + ChunkSize else |sentences|]
  }

  /** The chunks made from group `g` on, each group joined with `". "`, empty texts skipped. */
  function ChunksFrom(sentences: seq<string>, g: nat): (r: seq<Chunk>)
    ensures forall k :: 0 <= k < |r| ==> r[k].text != ""
    decreases |sentences| - ChunkSize * g
  {
    if ChunkSize * g >= |sentences| then []
    else
      var text := Join(". ", Group(sentences, g));
      (if text != "" then [Chunk("chunk_" + NatToString(g), text)] else []) + ChunksFrom(sentences, g + 1)
  }

  /** One step of `ChunksFrom`: the chunk of group `g`, if its text is not empty, then the rest. */
  lemma ChunksStep(sentences: seq<string>, g: nat)
    requires ChunkSize * g < |sentences|
    ensures var text := Join(". ", Group(sentences, g));
            ChunksFrom(sentences, g)
            == (if text != "" then [Chunk("chunk_" + NatToString(g), text)] else []) + ChunksFrom(sentences, g + 1)
  {
  }

  /** A join of non-empty strings is not empty. */
  lemma JoinNonEmpty(sep: string, parts: seq<string>)
    requires |parts| >= 1 && parts[0] != ""
    ensures Join(sep, parts) != ""
  {
  }

  /** When no sentence is empty, there is one chunk per started group of five. */
  lemma {:induction false} ChunkCount(sentences: seq<string>, g: nat)
    requires forall k :: 0 <= k < |sentences| ==> sentences[k] != ""
    ensures |ChunksFrom(sentences, g)|
            == if ChunkSize * g >= |sentences| then 0 else (|sentences| - ChunkSize * g + ChunkSize - 1) / ChunkSize
    decreases |sentences| - ChunkSize * g
  {
    if ChunkSize * g < |sentences| {
      var grp := Group(sentences, g);
      assert grp[0] == sentences[ChunkSize * g];
      JoinNonEmpty(". ", grp);
      ChunkCount(sentences, g + 1);
    }
  }

  /** One result of `query_concept`: `{"text", "location", "snippet"}`. */
  datatype ConceptHit = ConceptHit(text: string, location: string, snippet: string)

  /** Every index from `start` on where `sub` occurs in `t`, in increasing order. */
  function Occurrences(t: string, sub: string, start: nat): (r: seq<nat>)
    decreases |t| + 1 - start
  {
    var p := Find(t, sub, start);
    if p == -1 then [] else [p] + Occurrences(t, sub, p + 1)
  }

  /** Each occurrence is a match at or after `start`. */
  lemma {:induction false} OccurrencesMatch(t: string, sub: string, start: nat)
    ensures forall k :: 0 <= k < |Occurrences(t, sub, start)| ==>
              start <= Occurrences(t, sub, start)[k] && OccursAt(t, sub, Occurrences(t, sub, start)[k])
    decreases |t| + 1 - start
  {
    var p := Find(t, sub, start);
    if p != -1 {
      var q: nat := p + 1;
      var r, rest := Occurrences(t, sub, start), Occurrences(t, sub, q);
      assert r == [p] + rest;
      OccurrencesMatch(t, sub, q);
      assert forall k :: 0 < k < |r| ==> r[k] == rest[k - 1];
    }
  }

  /** The occurrences are strictly increasing, and all lie after `start`. */
  lemma {:induction false} OccurrencesIncreasing(t: string, sub: string, start: nat)
    ensures forall k :: 0 <= k < |Occurrences(t, sub, start)| ==> start <= Occurrences(t, sub, start)[k]
    ensures forall k, l :: 0 <= k < l < |Occurrences(t, sub, start)| ==>
              Occurrences(t, sub, start)[k] < Occurrences(t, sub, start)[l]
    decreases |t| + 1 - start
  {
    var p := Find(t, sub, start);
    if p != -1 {
      var q: nat := p + 1;
      var r, rest := Occurrences(t, sub, start), Occurrences(t, sub, q);
      assert r == [p] + rest;
      OccurrencesIncreasing(t, sub, q);
      assert forall k :: 0 < k < |r| ==> r[k] == rest[k - 1];
    }
  }

  /** Every match at or after `start` is among the occurrences, overlapping ones included. */
  lemma {:induction false} OccurrencesComplete(t: string, sub: string, start: nat)
    ensures forall i :: start <= i && OccursAt(t, sub, i) ==> i in Occurrences(t, sub, start)
    decreases |t| + 1 - start
  {
    FindFirst(t, sub, start);
    var p := Find(t, sub, start);
    if p != -1 {
      var q: nat := p + 1;
      var r, rest := Occurrences(t, sub, start), Occurrences(t, sub, q);
      assert r == [p] + rest;
      OccurrencesComplete(t, sub, q);
      forall i | start <= i && OccursAt(t, sub, i) ensures i in r {
        if i != p {
          assert q <= i && i in rest;
        }
      }
    }
  }

  /**
   * The occurrences are strictly increasing, each one is a match, and every
   * match from `start` on is among them, overlapping ones included.
   */
  lemma OccurrencesExact(t: string, sub: string, start: nat)
    ensures var r := Occurrences(t, sub, start);
            (forall k :: 0 <= k < |r| ==> start <= r[k] && OccursAt(t, sub, r[k]))
            && (forall k, l :: 0 <= k < l < |r| ==> r[k] < r[l])
            && (forall i :: start <= i && OccursAt(t, sub, i) ==> i in r)
  {
    OccurrencesMatch(t, sub, start);
    OccurrencesIncreasing(t, sub, start);
    OccurrencesComplete(t, sub, start);
  }

  /** The context around position `pos`: `window` characters on each side, clipped to the text. */
  function Context(text: string, concept: string, window: int, pos: nat): string {
    var lo := if pos - window > 0 then pos - window else 0;
    var hi := if |text| < pos + |concept| + window then |text| else pos + |concept| + window;
    Slice(text, lo, hi)
  }

  /** A context is never longer than the concept plus the window on both sides. */
  lemma ContextLength(text: string, concept: string, window: nat, pos: nat)
    ensures |Context(text, concept, window, pos)| <= |concept| + 2 * window
  {
  }

  function HitAt(text: string, concept: string, window: int, pos: nat): ConceptHit {
    ConceptHit(Context(text, concept, window, pos), "Position " + NatToString(pos), concept)
  }

  /** The hit for each position of `ps`, in order. */
  function HitsAt(text: string, concept: string, window: int, ps: seq<nat>): (r: seq<ConceptHit>)
    ensures |r| == |ps|
  {
    if ps == [] then [] else [HitAt(text, concept, window, ps[0])] + HitsAt(text, concept, window, ps[1..])
  }

  /** The hits `query_concept` collects: one per occurrence in the lowercased text from `start` on, in order. */
  function HitsFrom(text: string, concept: string, window: int, start: nat): seq<ConceptHit> {
    HitsAt(text, concept, window, Occurrences(Lower(text), Lower(concept), start))
  }

  /** The hit's context still holds more than `minLength` characters once the concept is removed and it is stripped. */
  predicate Explained(hit: ConceptHit, concept: string, minLength: int) {
    |Strip(RemoveAll(hit.text, concept))| > minLength
  }

  /** One step of `HitsFrom`: the hit at the next occurrence, then the rest. */
  lemma HitsFromStep(text: string, concept: string, window: int, start: nat)
    requires Find(Lower(text), Lower(concept), start) != -1
    ensures var p := Find(Lower(text), Lower(concept), start);
            HitsFrom(text, concept, window, start) == [HitAt(text, concept, window, p)] + HitsFrom(text, concept, window, p + 1)
  {
    var p := Find(Lower(text), Lower(concept), start);
    var q: nat := p + 1;
    var ps, rest := Occurrences(Lower(text), Lower(concept), start), Occurrences(Lower(text), Lower(concept), q);
    assert ps == [p] + rest;
    assert ps[0] == p && ps[1..] == rest;
  }

  /** The loop of `query_concept` keeps its invariant across one occurrence. */
  lemma HitsFromAdvance(text: string, concept: string, window: int, start: nat, done: seq<ConceptHit>)
    requires Find(Lower(text), Lower(concept), start) != -1
    requires done + HitsFrom(text, concept, window, start) == HitsFrom(text, concept, window, 0)
    ensures var p := Find(Lower(text), Lower(concept), start);
            start <= p < |text| + 1
            && done + [HitAt(text, concept, window, p)] + HitsFrom(text, concept, window, p + 1)
               == HitsFrom(text, concept, window, 0)
  {
    HitsFromStep(text, concept, window, start);
  }

  const ClaimKeywords: seq<string> :=
    ["we implemented", "we use", "we built", "our architecture",
     "the system uses", "parallelism", "fan-out", "fan-in",
     "StateGraph", "LangGraph", "judges", "detectives"]

  /** A chunk text that `extract_architectural_claims` keeps. */
  predicate IsClaim(text: string) {
    ContainsAny(Lower(text), ClaimKeywords)
  }

  /** The kept chunk texts, in chunk order. */
  function Claims(chunks: seq<Chunk>): (r: seq<string>)
    ensures |r| <= |chunks|
    ensures forall x :: x in r ==> IsClaim(x)
  {
    if chunks == [] then []
    else
      Claims(chunks[..|chunks| - 1])
      + (if IsClaim(chunks[|chunks| - 1].text) then [chunks[|chunks| - 1].text] else [])
  }

  /** The claims of two runs of chunks are those of each run, in order. */
  lemma {:induction false} ClaimsAppend(a: seq<Chunk>, b: seq<Chunk>)
    ensures Claims(a + b) == Claims(a) + Claims(b)
  {
    if b == [] {
      assert a + b == a;
    } else {
      var ab, init, last := a + b, b[..|b| - 1], b[|b| - 1];
      var tail := if IsClaim(last.text) then [last.text] else [];
      calc {
        Claims(ab);
      == { assert ab[..|ab| - 1] == a + init; assert ab[|ab| - 1] == last; ClaimsLast(ab); }
        Claims(a + init) + tail;
      == { ClaimsAppend(a, init); }
        (Claims(a) + Claims(init)) + tail;
      ==
        Claims(a) + (Claims(init) + tail);
      == { ClaimsLast(b); }
        Claims(a) + Claims(b);
      }
    }
  }

  lemma ClaimsLast(chunks: seq<Chunk>)
    requires chunks != []
    ensures var last := chunks[|chunks| - 1].text;
            Claims(chunks) == Claims(chunks[..|chunks| - 1]) + (if IsClaim(last) then [last] else [])
  {
  }

  /** No chunk that matches a keyword is lost. */
  lemma ClaimsComplete(chunks: seq<Chunk>, k: nat)
    requires k < |chunks| && IsClaim(chunks[k].text)
    ensures chunks[k].text in Claims(chunks)
  {
    var pre, mid, post := chunks[..k], [chunks[k]], chunks[k + 1..];
    var c := chunks[k].text;
    Seqs.SplitAt(chunks, k);
    ClaimsAppend(pre + mid, post);
    ClaimsAppend(pre, mid);
    assert Claims(mid) == [c] by { assert mid[..0] == []; }
    assert Claims(chunks) == (Claims(pre) + [c]) + Claims(post);
    assert Claims(chunks)[|Claims(pre)|] == c;
  }

  /** The lowercased chunk never contains the mixed-case keywords `StateGraph` and `LangGraph`. */
  lemma MixedCaseKeywordsNeverMatch(text: string)
    ensures !Contains(Lower(text), "StateGraph") && !Contains(Lower(text), "LangGraph")
    ensures IsClaim(text) <==> ContainsAny(Lower(text), ClaimKeywords[..8] + ClaimKeywords[10..])
  {
    UpperNeverInLower(text, "StateGraph", 0);
    UpperNeverInLower(text, "LangGraph", 0);
    var rest := ClaimKeywords[..8] + ClaimKeywords[10..];
    if IsClaim(text) {
      var k :| 0 <= k < |ClaimKeywords| && Contains(Lower(text), ClaimKeywords[k]);
      assert k != 8 && k != 9;
      assert ClaimKeywords[k] == rest[if k < 8 then k else k - 2];
    }
    if ContainsAny(Lower(text), rest) {
      var k :| 0 <= k < |rest| && Contains(Lower(text), rest[k]);
      assert rest[k] == ClaimKeywords[if k < 8 then k else k + 2];
    }
  }

  /** Elements of `xs` that are in `ys`, in order. */
  function KeptIn(xs: seq<string>, ys: seq<string>): seq<string> {
    if xs == [] then []
    else KeptIn(xs[..|xs| - 1], ys) + (if xs[|xs| - 1] in ys then [xs[|xs| - 1]] else [])
  }

  /** Elements of `xs` that are not in `ys`, in order. */
  function MissingFrom(xs: seq<string>, ys: seq<string>): seq<string> {
    if xs == [] then []
    else MissingFrom(xs[..|xs| - 1], ys) + (if xs[|xs| - 1] !in ys then [xs[|xs| - 1]] else [])
  }

  /** The two lists partition the mentioned files. */
  lemma {:induction false} KeptMissingPartition(xs: seq<string>, ys: seq<string>)
    ensures multiset(KeptIn(xs, ys)) + multiset(MissingFrom(xs, ys)) == multiset(xs)
    ensures |KeptIn(xs, ys)| + |MissingFrom(xs, ys)| == |xs|
    ensures forall x :: x in KeptIn(xs, ys) ==> x in ys
    ensures forall x :: x in MissingFrom(xs, ys) ==> x !in ys
  {
    if xs != [] {
      var init, last := xs[..|xs| - 1], xs[|xs| - 1];
      assert xs == init + [last];
      assert KeptIn(xs, ys) == KeptIn(init, ys) + (if last in ys then [last] else []);
      assert MissingFrom(xs, ys) == MissingFrom(init, ys) + (if last !in ys then [last] else []);
      KeptMissingPartition(init, ys);
    }
  }

  lemma RatioAtMostOne(a: nat, b: nat)
    requires 0 < b && a <= b
    ensures 0.0 <= a as real / b as real <= 1.0
  {
    assert a as real <= b as real;
  }

  /** The result dict of `cross_reference_files`. */
  datatype CrossReference = CrossReference(verified: seq<string>, hallucinated: seq<string>, verificationRate: real)

  class PDFAnalyzer {
    var text: string
    var chunks: seq<Chunk>
    var filePathsMentioned: seq<string>

    /** `__init__`: ingests only when the file exists. */
    constructor (source: PdfSource)
      ensures source.Extracted? ==> (text == Join(" ", source.pages)
                                     && chunks == ChunksFrom(source.sentences, 0)
                                     && filePathsMentioned == source.paths)
      ensures !source.Extracted? ==> text == "" && chunks == [] && filePathsMentioned == []
    {
      text := "";
      chunks := [];
      filePathsMentioned := [];
      new;
      if !source.NoFile? {
        IngestPdf(source);
      }
    }

    /** `_ingest_pdf`; a failure leaves the fields as they were. */
    method IngestPdf(source: PdfSource)
      requires chunks == []
      modifies this
      ensures source.Extracted? ==> (text == Join(" ", source.pages)
                                     && chunks == ChunksFrom(source.sentences, 0)
                                     && filePathsMentioned == source.paths)
      ensures !source.Extracted? ==> text == old(text) && chunks == [] && filePathsMentioned == old(filePathsMentioned)
    {
      if !source.Extracted? {
        return;
      }
      text := Join(" ", source.pages);
      var sentences := source.sentences;
      var made: seq<Chunk> := [];
      var i := 0;
      ghost var g := 0;
      while i < |sentences|
        invariant i == ChunkSize * g
        invariant text == Join(" ", source.pages)
        invariant made + ChunksFrom(sentences, g) == ChunksFrom(sentences, 0)
        decreases |sentences| - i
      {
        var group := sentences[i..if i + ChunkSize <= |sentences| then i + ChunkSize else |sentences|];
        assert group == Group(sentences, g);
        ChunksStep(sentences, g);
        var chunkText := Join(". ", group);
        if chunkText != "" {
          assert i / ChunkSize == g;
          made := made + [Chunk("chunk_" + NatToString(i / ChunkSize), chunkText)];
        }
        i := i + ChunkSize;
        g := g + 1;
      }
      assert ChunksFrom(sentences, g) == [];
      chunks := made;
      filePathsMentioned := source.paths;
    }

    /** `query_terms`: each term mapped to whether it occurs, ignoring case. */
    method QueryTerms(terms: seq<string>) returns (results: Dict<bool>)
      ensures DistinctKeys(results)
      ensures forall c :: c in Keys(results) <==> c in terms
      ensures forall k :: 0 <= k < |terms| ==> Get(results, terms[k]) == Some(Contains(Lower(text), Lower(terms[k])))
    {
      var textLower := Lower(text);
      results := PutEach(terms, (term: string) => Contains(textLower, Lower(term)));
    }

    /** `query_concept`: every occurrence, overlapping ones included, with its context. */
    method QueryConcept(concept: string, window: int) returns (results: seq<ConceptHit>)
      ensures results == HitsFrom(text, concept, window, 0)
    {
      var t := text;
      results := [];
      var textLower := Lower(t);
      var conceptLower := Lower(concept);
      var start := 0;
      var pos := Find(textLower, conceptLower, start);
      while pos != -1
        invariant results + HitsFrom(t, concept, window, start) == HitsFrom(t, concept, window, 0)
        invariant pos == Find(textLower, conceptLower, start)
        decreases |t| + 1 - start
      {
        var context := Context(t, concept, window, pos);
        var hit := ConceptHit(context, "Position " + NatToString(pos), concept);
        assert hit == HitAt(t, concept, window, pos);
        HitsFromAdvance(t, concept, window, start, results);
        results := results + [hit];
        start := pos + 1;
        pos := Find(textLower, conceptLower, start);
      }
    }

    /**
     * `verify_deep_understanding`: the first hit (window 150) whose context,
     * with the concept removed and stripped, is longer than `minContextLength`.
     */
    method VerifyDeepUnderstanding(concept: string, minContextLength: int) returns (deep: bool, evidence: string)
      ensures var hits := HitsFrom(text, concept, 150, 0);
              deep <==> exists k :: 0 <= k < |hits| && Explained(hits[k], concept, minContextLength)
      ensures var hits := HitsFrom(text, concept, 150, 0);
              deep ==> exists k :: 0 <= k < |hits| && Explained(hits[k], concept, minContextLength)
                                   && (forall j :: 0 <= j < k ==> !Explained(hits[j], concept, minContextLength))
                                   && evidence == "Found detailed explanation: " + Prefix(hits[k].text, 200) + "..."
      ensures HitsFrom(text, concept, 150, 0) == [] ==> evidence == "Concept '" + concept + "' not mentioned"
      ensures HitsFrom(text, concept, 150, 0) != [] && !deep ==>
                evidence == "Concept '" + concept + "' mentioned but not explained in depth"
    {
      var occurrences := QueryConcept(concept, 150);
      if occurrences == [] {
        return false, "Concept '" + concept + "' not mentioned";
      }
      for i := 0 to |occurrences|
        invariant forall k :: 0 <= k < i ==> !Explained(occurrences[k], concept, minContextLength)
      {
        var context := occurrences[i].text;
        var surrounding := Strip(RemoveAll(context, concept));
        if |surrounding| > minContextLength {
          assert Explained(occurrences[i], concept, minContextLength);
          return true, "Found detailed explanation: " + Prefix(context, 200) + "...";
        }
      }
      return false, "Concept '" + concept + "' mentioned but not explained in depth";
    }

    /** `cross_reference_files`. */
    method CrossReferenceFiles(verifiedFiles: seq<string>) returns (r: CrossReference)
      ensures r.verified == KeptIn(filePathsMentioned, verifiedFiles)
      ensures r.hallucinated == MissingFrom(filePathsMentioned, verifiedFiles)
      ensures |r.verified| + |r.hallucinated| == |filePathsMentioned|
      ensures r.verificationRate
              == if |filePathsMentioned| > 0 then |r.verified| as real / |filePathsMentioned| as real else 0.0
      ensures 0.0 <= r.verificationRate <= 1.0
    {
      var verified: seq<string> := [];
      var hallucinated: seq<string> := [];
      var mentioned := filePathsMentioned;
      for i := 0 to |mentioned|
        invariant verified == KeptIn(mentioned[..i], verifiedFiles)
        invariant hallucinated == MissingFrom(mentioned[..i], verifiedFiles)
      {
        assert mentioned[..i + 1][..i] == mentioned[..i];
        if mentioned[i] in verifiedFiles {
          verified := verified + [mentioned[i]];
        } else {
          hallucinated := hallucinated + [mentioned[i]];
        }
      }
      assert mentioned[..|mentioned|] == mentioned;
      KeptMissingPartition(mentioned, verifiedFiles);
      var total := |mentioned|;
      var rate := if total > 0 then |verified| as real / total as real else 0.0;
      if total > 0 {
        RatioAtMostOne(|verified|, total);
      }
      r := CrossReference(verified, hallucinated, rate);
    }

    /** `extract_architectural_claims`. */
    method ExtractArchitecturalClaims() returns (claims: seq<string>)
      ensures claims == Claims(chunks)
    {
      claims := [];
      for i := 0 to |chunks|
        invariant claims == Claims(chunks[..i])
      {
        assert chunks[..i + 1][..i] == chunks[..i];
        var lowered := Lower(chunks[i].text);
        if ContainsAny(lowered, ClaimKeywords) {
          claims := claims + [chunks[i].text];
        }
      }
      assert chunks[..|chunks|] == chunks;
    }
  }
}
