/**
 * Draft generation: the citations a reply carries, and the attempts made until every one of
 * them names a retrieved chunk.
 */
module Citations {
  import opened Options
  import opened Text

  // ---- reading citations ---------------------------------------------------------------

  /** A citation's opening mark `[c:` stands at position `i`. */
  predicate MarkAt(s: string, i: nat) {
    i + 2 < |s| && s[i] == '[' && s[i + 1] == 'c' && s[i + 2] == ':'
  }

  /** Where the id ends, if a citation `[c:id]` stands at the front of `s`: the id is nonempty and has no `]`. */
  function CitationEnd(s: string): (end: Option<nat>)
    ensures end.Some? ==> 3 < end.value < |s|
  {
    if MarkAt(s, 0) then
      var end := 3 + FirstOf(s[3..], ']');
      if 3 < end < |s| then Some(end) else None
    else None
  }

  /** `re.findall(r"\[c:([^\]]+)\]", s)`: leftmost citations first, none inside another. */
  function FindAll(s: string): seq<string>
    decreases |s|
  {
    if s == "" then []
    else match CitationEnd(s)
      case Some(end) => [s[3..end]] + FindAll(s[end + 1..])
      case None => FindAll(s[1..])
  }

  predicate IsId(id: string) {
    id != "" && ']' !in id
  }

  /** The opening mark of a citation is nowhere in the text. */
  predicate Unmarked(text: string) {
    forall i | 0 <= i < |text| :: !MarkAt(text, i)
  }

  function Cite(id: string): string {
    "[c:" + id + "]"
  }

  /** The ids as citations, with `seps` before, between and after them. */
  ghost function Printed(seps: seq<string>, ids: seq<string>): string
    requires |seps| == |ids| + 1
  {
    if ids == [] then seps[0] else seps[0] + (Cite(ids[0]) + Printed(seps[1..], ids[1..]))
  }

  lemma {:induction false} SkipUnmarked(sep: string, rest: string)
    requires Unmarked(sep) && (rest == "" || rest[0] == '[')
    ensures FindAll(sep + rest) == FindAll(rest)
  {
    var s := sep + rest;
    if sep == "" {
      assert s == rest;
    } else {
      var tail := sep[1..];
      assert MarkAt(s, 0) ==> MarkAt(sep, 0);
      assert forall i | 0 <= i < |tail| :: MarkAt(tail, i) ==> MarkAt(sep, i + 1);
      assert s[1..] == tail + rest;
      SkipUnmarked(tail, rest);
    }
  }

  lemma CitationEndOf(id: string, rest: string)
    requires IsId(id)
    ensures CitationEnd(Cite(id) + rest) == Some(3 + |id|)
  {
    var s, tail := Cite(id) + rest, id + ("]" + rest);
    assert s[3..] == tail;
    forall j | 0 <= j < |id|
      ensures tail[j] != ']'
    {
      assert tail[j] == id[j] && id[j] in id;
    }
    FirstOfIs(tail, ']', |id|);
  }

  lemma ReadCitation(id: string, rest: string)
    requires IsId(id)
    ensures FindAll(Cite(id) + rest) == [id] + FindAll(rest)
  {
    var s := Cite(id) + rest;
    CitationEndOf(id, rest);
    assert s[3..3 + |id|] == id;
    assert s[3 + |id| + 1..] == rest;
  }

  lemma {:induction false} FirstOfIs(s: string, c: char, i: nat)
    requires i < |s| && s[i] == c && forall j | 0 <= j < i :: s[j] != c
    ensures FirstOf(s, c) == i
  {
  }

  /** Reading undoes printing: all the ids come back, in order. */
  lemma {:induction false} ReadPrinted(seps: seq<string>, ids: seq<string>)
    requires |seps| == |ids| + 1
    requires (forall i | 0 <= i < |seps| :: Unmarked(seps[i])) && forall i | 0 <= i < |ids| :: IsId(ids[i])
    ensures FindAll(Printed(seps, ids)) == ids
  {
    if ids == [] {
      SkipUnmarked(seps[0], "");
      assert seps[0] + "" == seps[0];
    } else {
      var rest := Printed(seps[1..], ids[1..]);
      SkipUnmarked(seps[0], Cite(ids[0]) + rest);
      ReadCitation(ids[0], rest);
      ReadPrinted(seps[1..], ids[1..]);
    }
  }

  lemma PrintedCons(seps: seq<string>, ids: seq<string>, id: string)
    requires |seps| == |ids| + 1
    ensures Printed([""] + seps, [id] + ids) == Cite(id) + Printed(seps, ids)
  {
  }

  lemma PrintedPushed(seps: seq<string>, ids: seq<string>, c: char)
    requires |seps| == |ids| + 1
    ensures Printed([[c] + seps[0]] + seps[1..], ids) == [c] + Printed(seps, ids)
  {
  }

  lemma CitationSplits(s: string, end: nat)
    requires CitationEnd(s) == Some(end)
    ensures IsId(s[3..end]) && s == Cite(s[3..end]) + s[end + 1..]
  {
  }

  /** Whatever the text, what is read is printed in it: each id in a citation of its own, in order. */
  lemma {:induction false} ReadIsPrinted(s: string) returns (seps: seq<string>)
    ensures |seps| == |FindAll(s)| + 1 && s == Printed(seps, FindAll(s))
    ensures forall i | 0 <= i < |FindAll(s)| :: IsId(FindAll(s)[i])
    decreases |s|
  {
    if s == "" {
      seps := [""];
    } else {
      match CitationEnd(s)
      case Some(end) =>
        CitationSplits(s, end);
        var later := ReadIsPrinted(s[end + 1..]);
        seps := [""] + later;
        PrintedCons(later, FindAll(s[end + 1..]), s[3..end]);
      case None =>
        var later := ReadIsPrinted(s[1..]);
        seps := [[s[0]] + later[0]] + later[1..];
        assert s == [s[0]] + s[1..];
        PrintedPushed(later, FindAll(s[1..]), s[0]);
    }
  }

  // ---- first occurrences -----------------------------------------------------------------

  ghost predicate Distinct(ids: seq<string>) {
    forall i, j | 0 <= i < j < |ids| :: ids[i] != ids[j]
  }

  /** The first position of `id`, or the length. */
  ghost function First(ids: seq<string>, id: string): (i: nat)
    ensures i <= |ids| && (i < |ids| ==> ids[i] == id) && forall j | 0 <= j < i :: ids[j] != id
  {
    if ids == [] || ids[0] == id then 0 else 1 + First(ids[1..], id)
  }

  lemma FirstIs(ids: seq<string>, id: string, i: nat)
    requires i < |ids| && ids[i] == id && forall j | 0 <= j < i :: ids[j] != id
    ensures First(ids, id) == i
  {
  }

  /** The ids without repeats, in the order of their first occurrences. */
  ghost predicate IsDeduped(ids: seq<string>, out: seq<string>) {
    && (forall id :: id in out <==> id in ids)
    && forall j, k | 0 <= j < k < |out| :: First(ids, out[j]) < First(ids, out[k])
  }

  lemma DedupedMore(ids: seq<string>, out: seq<string>, id: string)
    requires IsDeduped(ids, out)
    ensures IsDeduped(ids + [id], if id in out then out else out + [id])
  {
    var more := ids + [id];
    forall x | x in ids
      ensures First(more, x) == First(ids, x) < |ids|
    {
      FirstIs(more, x, First(ids, x));
    }
    if id !in out {
      FirstIs(more, id, |ids|);
    }
  }

  /** Two lists with the same ids, each in order of first occurrence, are the same list. */
  lemma {:induction false} SameOrder(ids: seq<string>, a: seq<string>, b: seq<string>)
    requires forall id :: id in a <==> id in b
    requires forall id | id in a :: id in ids
    requires forall j, k | 0 <= j < k < |a| :: First(ids, a[j]) < First(ids, a[k])
    requires forall j, k | 0 <= j < k < |b| :: First(ids, b[j]) < First(ids, b[k])
    ensures a == b
  {
    assert a != [] ==> a[0] in a;
    assert b != [] ==> b[0] in b;
    if a != [] && b != [] {
      assert First(ids, a[0]) == First(ids, b[0]);
      var a', b' := a[1..], b[1..];
      forall id
        ensures id in a' <==> id in b'
      {
        assert id in a' <==> id in a && id != a[0];
        assert id in b' <==> id in b && id != b[0];
      }
      SameOrder(ids, a', b');
    }
  }

  lemma DedupedUnique(ids: seq<string>, a: seq<string>, b: seq<string>)
    requires IsDeduped(ids, a) && IsDeduped(ids, b)
    ensures a == b
  {
    SameOrder(ids, a, b);
  }

  lemma DedupedDistinct(ids: seq<string>, out: seq<string>)
    requires IsDeduped(ids, out)
    ensures Distinct(out)
  {
  }

  method ExtractCitations(text: string) returns (seen: seq<string>)
    ensures IsDeduped(FindAll(text), seen)
  {
    seen := [];
    var matches := FindAll(text);
    for n := 0 to |matches|
      invariant IsDeduped(matches[..n], seen)
    {
      PrefixMore(matches, n);
      DedupedMore(matches[..n], seen, matches[n]);
      if matches[n] !in seen {
        seen := seen + [matches[n]];
      }
    }
    assert matches[..|matches|] == matches;
  }

  /** Extracting undoes printing, up to repeats. */
  lemma ExtractPrinted(seps: seq<string>, ids: seq<string>, seen: seq<string>)
    requires |seps| == |ids| + 1
    requires (forall i | 0 <= i < |seps| :: Unmarked(seps[i])) && forall i | 0 <= i < |ids| :: IsId(ids[i])
    requires IsDeduped(FindAll(Printed(seps, ids)), seen)
    ensures IsDeduped(ids, seen) && (Distinct(ids) ==> seen == ids)
  {
    ReadPrinted(seps, ids);
    if Distinct(ids) {
      forall j | 0 <= j < |ids|
        ensures First(ids, ids[j]) == j
      {
        FirstIs(ids, ids[j], j);
      }
      DedupedUnique(ids, seen, ids);
    }
  }

  // ---- the context block -------------------------------------------------------------------

  datatype Source = Source(id: string, text: string)

  function Lines(chunks: seq<Source>): (lines: seq<string>)
    ensures |lines| == |chunks| && forall i | 0 <= i < |lines| :: lines[i] == Cite(chunks[i].id) + " " + chunks[i].text
  {
    seq(|chunks|, i requires 0 <= i < |chunks| => Cite(chunks[i].id) + " " + chunks[i].text)
  }

  /** The chunks as the prompt shows them. */
  function RenderChunks(chunks: seq<Source>): string {
    Join("\n\n", Lines(chunks))
  }

  function SourceIds(chunks: seq<Source>): (ids: seq<string>)
    ensures |ids| == |chunks| && forall i | 0 <= i < |ids| :: ids[i] == chunks[i].id
  {
    seq(|chunks|, i requires 0 <= i < |chunks| => chunks[i].id)
  }

  /** What stands between the first chunk's citation and the next one. */
  function Separator(chunks: seq<Source>): string
    requires chunks != []
  {
    " " + chunks[0].text + if |chunks| == 1 then "" else "\n\n"
  }

  lemma {:induction false} RenderCons(chunks: seq<Source>)
    requires chunks != []
    ensures RenderChunks(chunks) == Cite(chunks[0].id) + (Separator(chunks) + RenderChunks(chunks[1..]))
  {
    assert Lines(chunks)[1..] == Lines(chunks[1..]);
    if |chunks| == 1 {
      assert RenderChunks(chunks[1..]) == "";
    }
  }

  /** A citation starts inside `sep`, wherever it ends. */
  ghost predicate OpensIn(sep: string, rest: string) {
    exists p :: 0 <= p < |sep| && OpensAt(sep + rest, p)
  }

  ghost predicate OpensAt(s: string, p: nat) {
    p <= |s| && CitationEnd(s[p..]).Some?
  }

  /** In the rendered block a citation starts inside a chunk's text. */
  ghost predicate TextOpens(chunks: seq<Source>) {
    chunks != [] && (OpensIn(Separator(chunks), RenderChunks(chunks[1..])) || TextOpens(chunks[1..]))
  }

  ghost function TotalLength(ids: seq<string>): nat {
    if ids == [] then 0 else |ids[0]| + TotalLength(ids[1..])
  }

  lemma {:induction false} OpensLater(sep: string, rest: string)
    requires sep != "" && CitationEnd(sep + rest).None?
    ensures OpensIn(sep, rest) <==> OpensIn(sep[1..], rest)
    ensures (sep + rest)[1..] == sep[1..] + rest
  {
    var s := sep + rest;
    assert s[1..] == sep[1..] + rest && s[0..] == s;
    if p :| 0 <= p < |sep| && OpensAt(s, p) {
      assert s[p..] == s[1..][p - 1..];
      assert OpensAt(sep[1..] + rest, p - 1);
    }
    if p :| 0 <= p < |sep[1..]| && OpensAt(sep[1..] + rest, p) {
      assert s[1..][p..] == s[p + 1..];
      assert OpensAt(s, p + 1);
    }
  }

  /** A citation that starts in `sep` and is not closed there swallows the one that follows. */
  lemma {:induction false} Swallows(sep: string, id: string, rest: string, end: nat)
    requires IsId(id) && sep != "" && CitationEnd(sep + (Cite(id) + rest)) == Some(end) && end >= |sep|
    ensures var s := sep + (Cite(id) + rest); |s[3..end]| > |id| && s[end + 1..] == rest
  {
    var s, at := sep + (Cite(id) + rest), |sep| + 3 + |id|;
    assert MarkAt(s, 0) && |sep| >= 3 by {
      assert s[|sep|] == '[';
    }
    assert s[at] == ']' && forall j | 3 <= j < at :: s[j] != ']' by {
      forall j | 3 <= j < at
        ensures s[j] != ']'
      {
        if j >= |sep| + 3 {
          assert s[j] == id[j - |sep| - 3] && id[j - |sep| - 3] in id;
        } else if j < |sep| {
          assert j < end && s[3..][j - 3] != ']';
        }
      }
    }
    FirstOfIs(s[3..], ']', at - 3);
    assert s[at + 1..] == rest;
  }

  /**
   * Reading from inside a text on: all the later ids if no citation starts in a text, and
   * otherwise more ids than chunks, or as many with more characters.
   */
  lemma {:induction false} ReadFrom(sep: string, chunks: seq<Source>)
    requires forall i | 0 <= i < |chunks| :: IsId(chunks[i].id)
    ensures var found := FindAll(sep + RenderChunks(chunks));
            && |found| >= |chunks|
            && if OpensIn(sep, RenderChunks(chunks)) || TextOpens(chunks) then
                 |found| > |chunks| || TotalLength(found) > TotalLength(SourceIds(chunks))
               else found == SourceIds(chunks)
    decreases |chunks|, |sep| + 1
  {
    var rest := RenderChunks(chunks);
    var s := sep + rest;
    if sep == "" {
      assert s == rest && !OpensIn(sep, rest);
      if chunks != [] {
        ReadFirst(chunks);
      }
    } else {
      match CitationEnd(s)
      case None =>
        OpensLater(sep, rest);
        ReadFrom(sep[1..], chunks);
      case Some(end) =>
        assert s[0..] == s && OpensAt(s, 0);
        if end < |sep| {
          assert s[end + 1..] == sep[end + 1..] + rest;
          ReadFrom(sep[end + 1..], chunks);
        } else {
          ReadSwallowed(sep, chunks, end);
        }
    }
  }

  lemma {:induction false} IdsCons(chunks: seq<Source>)
    requires chunks != []
    ensures SourceIds(chunks) == [chunks[0].id] + SourceIds(chunks[1..])
    ensures TotalLength(SourceIds(chunks)) == |chunks[0].id| + TotalLength(SourceIds(chunks[1..]))
  {
    assert SourceIds(chunks)[1..] == SourceIds(chunks[1..]);
  }

  lemma TotalCons(id: string, ids: seq<string>)
    ensures TotalLength([id] + ids) == |id| + TotalLength(ids)
  {
    assert ([id] + ids)[1..] == ids;
  }

  lemma {:induction false} ReadFirst(chunks: seq<Source>)
    requires chunks != [] && forall i | 0 <= i < |chunks| :: IsId(chunks[i].id)
    ensures var found := FindAll(RenderChunks(chunks));
            && |found| >= |chunks|
            && if TextOpens(chunks) then |found| > |chunks| || TotalLength(found) > TotalLength(SourceIds(chunks))
               else found == SourceIds(chunks)
    decreases |chunks|, 0
  {
    var id, sep, rest := chunks[0].id, Separator(chunks), chunks[1..];
    RenderCons(chunks);
    ReadCitation(id, sep + RenderChunks(rest));
    ReadFrom(sep, rest);
    IdsCons(chunks);
    TotalCons(id, FindAll(sep + RenderChunks(rest)));
  }

  lemma {:induction false} ReadSwallowed(sep: string, chunks: seq<Source>, end: nat)
    requires forall i | 0 <= i < |chunks| :: IsId(chunks[i].id)
    requires sep != "" && CitationEnd(sep + RenderChunks(chunks)) == Some(end) && end >= |sep|
    ensures var found := FindAll(sep + RenderChunks(chunks));
            && |found| >= |chunks|
            && (|found| > |chunks| || TotalLength(found) > TotalLength(SourceIds(chunks)))
    decreases |chunks|, 0
  {
    assert chunks != [] by {
      assert chunks == [] ==> sep + RenderChunks(chunks) == sep;
    }
    var s, later, rest := sep + RenderChunks(chunks), Separator(chunks), chunks[1..];
    RenderCons(chunks);
    Swallows(sep, chunks[0].id, later + RenderChunks(rest), end);
    assert FindAll(s) == [s[3..end]] + FindAll(later + RenderChunks(rest));
    ReadFrom(later, rest);
    IdsCons(chunks);
    TotalCons(s[3..end], FindAll(later + RenderChunks(rest)));
  }

  /**
   * Reading the prompt's citations gives exactly the retrieved chunks' ids, in order, if and
   * only if no citation starts inside a chunk's text.
   */
  lemma {:induction false} ReadRendered(chunks: seq<Source>)
    requires forall i | 0 <= i < |chunks| :: IsId(chunks[i].id)
    ensures FindAll(RenderChunks(chunks)) == SourceIds(chunks) <==> !TextOpens(chunks)
  {
    ReadFrom("", chunks);
    assert "" + RenderChunks(chunks) == RenderChunks(chunks);
  }

  /** Texts without the mark `[c:` open none. */
  lemma {:induction false} UnmarkedOpensNone(chunks: seq<Source>)
    requires forall i | 0 <= i < |chunks| :: Unmarked(chunks[i].text)
    ensures !TextOpens(chunks)
  {
    if chunks != [] {
      var sep, rest := Separator(chunks), RenderChunks(chunks[1..]);
      forall p | 0 <= p < |sep|
        ensures !OpensAt(sep + rest, p)
      {
        UnmarkedThere(chunks, p);
      }
      UnmarkedOpensNone(chunks[1..]);
    }
  }

  lemma {:induction false} UnmarkedThere(chunks: seq<Source>, p: nat)
    requires chunks != [] && Unmarked(chunks[0].text) && p < |Separator(chunks)|
    ensures !OpensAt(Separator(chunks) + RenderChunks(chunks[1..]), p)
  {
    var text, sep, rest := chunks[0].text, Separator(chunks), RenderChunks(chunks[1..]);
    var s := sep + rest;
    if MarkAt(s[p..], 0) {
      assert MarkAt(s, p);
      assert |chunks| == 1 ==> rest == "";
      assert |chunks| > 1 ==> sep[1 + |text|] == '\n' && sep[2 + |text|] == '\n';
      assert 1 <= p && MarkAt(text, p - 1);
    }
  }

  // ---- the attempts ----------------------------------------------------------------------------

  datatype Completion = Completion(text: string, model: string, inputTokens: nat, outputTokens: nat)

  datatype DraftResult = DraftResult(text: string, citedIds: seq<string>, model: string)

  datatype DraftOutcome = DraftOutcome(result: Option<DraftResult>, inputTokens: nat, outputTokens: nat)

  /** The language model: its answer to the `n`-th call of a run. */
  type Provider = (nat, string) -> Completion

  const MAX_ATTEMPTS: nat := 2

  ghost predicate Grounded(text: string, validIds: set<string>) {
    forall id | id in FindAll(text) :: id in validIds
  }

  /** The completion of attempt `n`; every attempt after the first carries the reminder. */
  ghost function Attempt(provider: Provider, prompt: string, reminder: string, n: nat): Completion {
    provider(n, prompt + if n <= 1 then "" else reminder)
  }

  ghost function InputTokens(provider: Provider, prompt: string, reminder: string, n: nat): nat {
    if n == 0 then 0 else InputTokens(provider, prompt, reminder, n - 1) + Attempt(provider, prompt, reminder, n).inputTokens
  }

  ghost function OutputTokens(provider: Provider, prompt: string, reminder: string, n: nat): nat {
    if n == 0 then 0 else OutputTokens(provider, prompt, reminder, n - 1) + Attempt(provider, prompt, reminder, n).outputTokens
  }

  /**
   * What `n` attempts made of a draft: only the last can be grounded, fewer than all are made
   * only if it is, and every attempt's tokens are counted.
   */
  ghost predicate IsOutcome(provider: Provider, prompt: string, reminder: string, validIds: set<string>, n: nat,
                            outcome: DraftOutcome)
  {
    && 1 <= n <= MAX_ATTEMPTS
    && (forall k: nat | 1 <= k < n :: !Grounded(Attempt(provider, prompt, reminder, k).text, validIds))
    && outcome.inputTokens == InputTokens(provider, prompt, reminder, n)
    && outcome.outputTokens == OutputTokens(provider, prompt, reminder, n)
    && var last := Attempt(provider, prompt, reminder, n);
    match outcome.result
    case Some(draft) =>
      Grounded(last.text, validIds) && draft.text == last.text && draft.model == last.model
      && IsDeduped(FindAll(last.text), draft.citedIds)
    case None => n == MAX_ATTEMPTS && !Grounded(last.text, validIds)
  }

  /** None of the first `n` attempts was grounded; their tokens are counted. */
  ghost predicate AllFailed(provider: Provider, prompt: string, reminder: string, validIds: set<string>, n: nat,
                            input: nat, output: nat)
  {
    && input == InputTokens(provider, prompt, reminder, n) && output == OutputTokens(provider, prompt, reminder, n)
    && forall k: nat | 1 <= k <= n :: !Grounded(Attempt(provider, prompt, reminder, k).text, validIds)
  }

  /** What one or two attempts made of a draft. */
  ghost predicate IsOutcomeOf(provider: Provider, prompt: string, reminder: string, validIds: set<string>,
                              outcome: DraftOutcome)
  {
    exists n :: IsOutcome(provider, prompt, reminder, validIds, n, outcome)
  }

  method GenerateDraft(provider: Provider, prompt: string, reminder: string, validIds: set<string>)
    returns (outcome: DraftOutcome, ghost attempts: nat)
    ensures IsOutcomeOf(provider, prompt, reminder, validIds, outcome)
    ensures IsOutcome(provider, prompt, reminder, validIds, attempts, outcome)
  {
    var totalInput: nat, totalOutput: nat, added := 0, 0, "";
    attempts := 0;
    for attempt := 1 to MAX_ATTEMPTS + 1
      invariant attempts == attempt - 1 && added == if attempt == 1 then "" else reminder
      invariant AllFailed(provider, prompt, reminder, validIds, attempts, totalInput, totalOutput)
    {
      var completion := provider(attempt, prompt + added);
      assert completion == Attempt(provider, prompt, reminder, attempt);
      totalInput := totalInput + completion.inputTokens;
      totalOutput := totalOutput + completion.outputTokens;
      var citedIds := ExtractCitations(completion.text);
      var invalid := set id | id in citedIds && id !in validIds;
      InvalidMeans(completion.text, citedIds, validIds, invalid);
      AttemptMade(provider, prompt, reminder, validIds, attempts, totalInput, totalOutput, citedIds);
      attempts := attempt;
      if invalid == {} {
        outcome := DraftOutcome(Some(DraftResult(completion.text, citedIds, completion.model)), totalInput, totalOutput);
        return;
      }
      added := reminder;
    }
    outcome := DraftOutcome(None, totalInput, totalOutput);
    assert IsOutcome(provider, prompt, reminder, validIds, attempts, outcome);
  }

  /** One more attempt, with its tokens counted: a grounded one is the outcome, and any other has failed too. */
  lemma AttemptMade(provider: Provider, prompt: string, reminder: string, validIds: set<string>, n: nat, input: nat,
                    output: nat, citedIds: seq<string>)
    requires n < MAX_ATTEMPTS
    requires var last := Attempt(provider, prompt, reminder, n + 1);
             && input >= last.inputTokens && output >= last.outputTokens && IsDeduped(FindAll(last.text), citedIds)
             && AllFailed(provider, prompt, reminder, validIds, n, input - last.inputTokens, output - last.outputTokens)
    ensures var last := Attempt(provider, prompt, reminder, n + 1);
            if Grounded(last.text, validIds) then
              var outcome := DraftOutcome(Some(DraftResult(last.text, citedIds, last.model)), input, output);
              IsOutcome(provider, prompt, reminder, validIds, n + 1, outcome)
            else AllFailed(provider, prompt, reminder, validIds, n + 1, input, output)
  {
  }

  lemma InvalidMeans(text: string, citedIds: seq<string>, validIds: set<string>, invalid: set<string>)
    requires IsDeduped(FindAll(text), citedIds) && invalid == set id | id in citedIds && id !in validIds
    ensures invalid == {} <==> Grounded(text, validIds)
  {
    if invalid != {} {
      var bad :| bad in invalid;
      assert bad in FindAll(text);
    } else {
      assert forall id | id in citedIds :: id !in invalid;
    }
  }

  lemma {:induction false} DistinctFits(ids: seq<string>, valid: set<string>)
    requires Distinct(ids) && forall id | id in ids :: id in valid
    ensures |ids| <= |valid|
  {
    if ids != [] {
      var last := |ids| - 1;
      assert ids[last] in valid;
      forall id | id in ids[..last]
        ensures id in valid - {ids[last]}
      {
        var i :| 0 <= i < last && ids[i] == id;
      }
      DistinctFits(ids[..last], valid - {ids[last]});
    }
  }

  /** A draft's citations are a duplicate-free part of the retrieved ids, so there are no more of them. */
  lemma DraftCitesRetrieved(provider: Provider, prompt: string, reminder: string, validIds: set<string>, n: nat,
                            outcome: DraftOutcome)
    requires IsOutcome(provider, prompt, reminder, validIds, n, outcome) && outcome.result.Some?
    ensures var cited := outcome.result.value.citedIds;
            Distinct(cited) && (forall id | id in cited :: id in validIds) && |cited| <= |validIds|
  {
    var draft := outcome.result.value;
    DedupedDistinct(FindAll(draft.text), draft.citedIds);
    DistinctFits(draft.citedIds, validIds);
  }

  /** The calls made: the prompt, and only if its answer cites something else, the prompt with the reminder; their tokens are added up. */
  lemma {:induction false} CallsMade(provider: Provider, prompt: string, reminder: string, validIds: set<string>, n: nat,
                                     outcome: DraftOutcome)
    requires IsOutcome(provider, prompt, reminder, validIds, n, outcome)
    ensures var first, second := provider(1, prompt), provider(2, prompt + reminder);
            && n == (if Grounded(first.text, validIds) then 1 else 2)
            && var last := if n == 1 then first else second;
            && outcome.inputTokens == first.inputTokens + (if n == 1 then 0 else second.inputTokens)
            && outcome.outputTokens == first.outputTokens + (if n == 1 then 0 else second.outputTokens)
            && (outcome.result.Some? <==> Grounded(last.text, validIds))
            && (outcome.result.Some? ==> outcome.result.value.text == last.text && outcome.result.value.model == last.model)
  {
    assert Attempt(provider, prompt, reminder, 1) == provider(1, prompt) by {
      assert prompt + "" == prompt;
    }
    assert Attempt(provider, prompt, reminder, 2) == provider(2, prompt + reminder);
    assert InputTokens(provider, prompt, reminder, 1) == provider(1, prompt).inputTokens;
    assert OutputTokens(provider, prompt, reminder, 1) == provider(1, prompt).outputTokens;
  }

  // ---- which citations are read ----------------------------------------------------------------

  /** A citation with this id stands at the front. */
  ghost predicate StartsWith(s: string, id: string) {
    IsId(id) && Cite(id) <= s
  }

  /** The end of a citation is found exactly where one stands. */
  lemma {:induction false} CitationEndIff(s: string, id: string)
    ensures StartsWith(s, id) <==> CitationEnd(s) == Some(3 + |id|) && s[3..3 + |id|] == id
  {
    if StartsWith(s, id) {
      var rest := s[|Cite(id)|..];
      assert s == Cite(id) + rest;
      CitationEndOf(id, rest);
      assert s[3..3 + |id|] == id;
    }
    if CitationEnd(s) == Some(3 + |id|) && s[3..3 + |id|] == id {
      CitationSplits(s, 3 + |id|);
      assert Cite(id) == s[..|Cite(id)|];
    }
  }

  /** These are the citations of the text from the left: none starts before the first, and so on after it. */
  ghost predicate AreLeftmost(s: string, seps: seq<string>, ids: seq<string>)
    decreases |ids|
  {
    && |seps| == |ids| + 1
    && (forall p, id | 0 <= p < |seps[0]| <= |s| :: !StartsWith(s[p..], id))
    && if ids == [] then s == seps[0]
       else
         var n := |seps[0]| + |Cite(ids[0])|;
         n <= |s| && s[..n] == seps[0] + Cite(ids[0]) && IsId(ids[0]) && AreLeftmost(s[n..], seps[1..], ids[1..])
  }

  lemma {:induction false} NoneStarts(s: string)
    ensures CitationEnd(s).None? <==> forall id :: !StartsWith(s, id)
  {
    if CitationEnd(s).Some? {
      var end := CitationEnd(s).value;
      CitationEndIff(s, s[3..end]);
      assert StartsWith(s, s[3..end]);
    } else {
      forall id
        ensures !StartsWith(s, id)
      {
        CitationEndIff(s, id);
      }
    }
  }

  /** One character further back, the citations are the same. */
  lemma {:induction false} LeftmostLonger(s: string, seps: seq<string>, ids: seq<string>)
    requires s != "" && AreLeftmost(s[1..], seps, ids) && CitationEnd(s).None?
    ensures AreLeftmost(s, [[s[0]] + seps[0]] + seps[1..], ids)
  {
    var first := [s[0]] + seps[0];
    var longer := [first] + seps[1..];
    NoneStarts(s);
    forall p, id | 0 <= p < |first| <= |s|
      ensures !StartsWith(s[p..], id)
    {
      if p == 0 {
        assert s[0..] == s;
      } else {
        assert s[p..] == s[1..][p - 1..];
      }
    }
    assert longer[1..] == seps[1..];
    if ids == [] {
      assert s == first;
    } else {
      var n := |seps[0]| + |Cite(ids[0])|;
      assert s[..n + 1] == [s[0]] + s[1..][..n];
      assert s[n + 1..] == s[1..][n..];
    }
  }

  /** And one character on. */
  lemma {:induction false} LeftmostShorter(s: string, seps: seq<string>, ids: seq<string>)
    requires AreLeftmost(s, seps, ids) && seps[0] != ""
    ensures s != "" && CitationEnd(s).None? && AreLeftmost(s[1..], [seps[0][1..]] + seps[1..], ids)
  {
    var first := seps[0][1..];
    var shorter := [first] + seps[1..];
    assert ids != [] ==> s[..|seps[0]| + |Cite(ids[0])|][0] == seps[0][0];
    assert s[0..] == s;
    NoneStarts(s);
    forall p, id | 0 <= p < |first| <= |s[1..]|
      ensures !StartsWith(s[1..][p..], id)
    {
      assert s[1..][p..] == s[p + 1..];
    }
    assert shorter[1..] == seps[1..];
    if ids != [] {
      var n := |seps[0]| + |Cite(ids[0])|;
      assert s[1..][..n - 1] == s[..n][1..];
      assert s[n..] == s[1..][n - 1..];
    }
  }

  lemma {:induction false} LeftmostFirst(s: string, end: nat, seps: seq<string>, ids: seq<string>)
    requires CitationEnd(s) == Some(end) && AreLeftmost(s[end + 1..], seps, ids)
    ensures AreLeftmost(s, [""] + seps, [s[3..end]] + ids)
  {
    CitationSplits(s, end);
    var id := s[3..end];
    assert s[..|Cite(id)|] == Cite(id) && s[|Cite(id)|..] == s[end + 1..];
    assert ([""] + seps)[1..] == seps && ([id] + ids)[1..] == ids;
    assert "" + Cite(id) == Cite(id);
  }

  /** What is read are the citations of the text from the left. */
  lemma {:induction false} ReadIsLeftmost(s: string) returns (seps: seq<string>)
    ensures AreLeftmost(s, seps, FindAll(s))
    decreases |s|
  {
    if s == "" {
      seps := [""];
    } else {
      match CitationEnd(s)
      case Some(end) =>
        var later := ReadIsLeftmost(s[end + 1..]);
        LeftmostFirst(s, end, later, FindAll(s[end + 1..]));
        seps := [""] + later;
      case None =>
        var later := ReadIsLeftmost(s[1..]);
        LeftmostLonger(s, later, FindAll(s[1..]));
        seps := [[s[0]] + later[0]] + later[1..];
    }
  }

  /** And nothing else is. */
  lemma {:induction false} LeftmostIsRead(s: string, seps: seq<string>, ids: seq<string>)
    requires AreLeftmost(s, seps, ids)
    ensures FindAll(s) == ids
    decreases |s|
  {
    if seps[0] != "" {
      LeftmostShorter(s, seps, ids);
      LeftmostIsRead(s[1..], [seps[0][1..]] + seps[1..], ids);
    } else if ids != [] {
      var rest := s[|Cite(ids[0])|..];
      assert s == Cite(ids[0]) + rest;
      ReadCitation(ids[0], rest);
      LeftmostIsRead(rest, seps[1..], ids[1..]);
    }
  }

  // ---- the context block's layout ------------------------------------------------------------------

  /** The block has each chunk's citation and whole text, in order, with an empty line between them. */
  lemma {:induction false} ContextStands(chunks: seq<Source>) returns (lines: seq<string>, at: seq<nat>)
    requires chunks != []
    ensures |lines| == |chunks| && forall i | 0 <= i < |chunks| :: lines[i] == "[c:" + chunks[i].id + "] " + chunks[i].text
    ensures StandAt(RenderChunks(chunks), "\n\n", lines, at) && at[0] == 0
  {
    lines := Lines(chunks);
    at := JoinStands("\n\n", lines);
    forall i | 0 <= i < |chunks|
      ensures lines[i] == "[c:" + chunks[i].id + "] " + chunks[i].text
    {
      assert "]" + " " == "] ";
    }
  }
}
