/** `knowledgeLoader`: the retrieval query, the ranking of the retrieved
    chunks by the offset their splitter metadata ends with, the context they
    make, the prompt template and the call handed to the chat model. The
    vector store's answer is an input. */
module KnowledgeLoader {
  import opened Wrappers
  import opened Strings
  import opened Chat

  /** A retrieved chunk: its text and, when present, the `startScope`
      metadata string the scope-aware splitter wrote (`k1>k2>offset`). */
  datatype Retrieved = Retrieved(pageContent: string, startScope: Option<string>)

  /** `vectorStore.similaritySearch(question, 6)` on the store opened with
      `{textKey: 'text', namespace: knowledge.namespace}`. */
  datatype Query = Query(namespace: string, textKey: string, question: string, k: nat)

  function RetrievalQuery(question: string, knowledge: Knowledge): (q: Query)
    ensures q.namespace == knowledge.namespace && q.question == question
    ensures q.textKey == "text" && q.k == 6
  {
    Query(knowledge.namespace, "text", question, 6)
  }

  /** The comparator is numeric: the trailing segment is missing, empty or
      a decimal number. */
  predicate Rankable(d: Retrieved)
  {
    d.startScope.None? ||
    var seg := LastSegment(d.startScope.value, '>');
    seg == "" || IsDecimal(seg)
  }

  /** `d.metadata?.startScope?.split('>').pop() || 0`, as the subtraction
      in the comparator reads it. */
  function TrailingOffset(d: Retrieved): int
    requires Rankable(d)
  {
    if d.startScope.None? then 0
    else
      var seg := LastSegment(d.startScope.value, '>');
      if seg == "" then 0 else ParseInt(seg)
  }

  predicate AllRankable(ds: seq<Retrieved>)
  {
    forall i :: 0 <= i < |ds| ==> Rankable(ds[i])
  }

  /** Ascending by trailing offset. */
  predicate Ranked(ds: seq<Retrieved>)
    requires AllRankable(ds)
  {
    forall i, j :: 0 <= i < j < |ds| ==> TrailingOffset(ds[i]) <= TrailingOffset(ds[j])
  }

  /** Inserts `d` in front of the first entry whose offset is not smaller. */
  function Insert(d: Retrieved, ds: seq<Retrieved>): (r: seq<Retrieved>)
    requires Rankable(d) && AllRankable(ds)
    ensures AllRankable(r)
    ensures multiset(r) == multiset(ds) + multiset{d}
  {
    if ds == [] || TrailingOffset(d) <= TrailingOffset(ds[0]) then [d] + ds
    else
      var rest := Insert(d, ds[1..]);
      assert ds == [ds[0]] + ds[1..];
      [ds[0]] + rest
  }

  /** `results.sort((a, b) => indexA - indexB)`: a stable sort, written as
      an insertion sort from the back. */
  function Rank(ds: seq<Retrieved>): (r: seq<Retrieved>)
    requires AllRankable(ds)
    ensures AllRankable(r)
  {
    if ds == [] then [] else Insert(ds[0], Rank(ds[1..]))
  }

  /** A bound below `d` and below every entry is below every entry after
      inserting `d`. */
  lemma {:induction false} InsertKeepsLowerBound(d: Retrieved, ds: seq<Retrieved>, b: int)
    requires Rankable(d) && AllRankable(ds)
    requires b <= TrailingOffset(d)
    requires forall j :: 0 <= j < |ds| ==> b <= TrailingOffset(ds[j])
    ensures forall j :: 0 <= j < |Insert(d, ds)| ==> b <= TrailingOffset(Insert(d, ds)[j])
    decreases |ds|
  {
    if ds != [] && TrailingOffset(d) > TrailingOffset(ds[0]) {
      InsertKeepsLowerBound(d, ds[1..], b);
      var r := Insert(d, ds);
      var rest := Insert(d, ds[1..]);
      assert r == [ds[0]] + rest;
      forall j | 0 < j < |r|
        ensures b <= TrailingOffset(r[j])
      {
        assert r[j] == rest[j - 1];
        assert b <= TrailingOffset(rest[j - 1]);
      }
    }
  }

  lemma {:induction false} InsertRanked(d: Retrieved, ds: seq<Retrieved>)
    requires Rankable(d) && AllRankable(ds) && Ranked(ds)
    ensures Ranked(Insert(d, ds))
    decreases |ds|
  {
    if ds != [] && TrailingOffset(d) > TrailingOffset(ds[0]) {
      InsertRanked(d, ds[1..]);
      InsertKeepsLowerBound(d, ds[1..], TrailingOffset(ds[0]));
      var r := Insert(d, ds);
      var rest := Insert(d, ds[1..]);
      assert r == [ds[0]] + rest;
      forall i, j | 0 <= i < j < |r|
        ensures TrailingOffset(r[i]) <= TrailingOffset(r[j])
      {
        assert r[j] == rest[j - 1];
        assert TrailingOffset(ds[0]) <= TrailingOffset(rest[j - 1]);
        if i > 0 {
          assert r[i] == rest[i - 1];
          assert TrailingOffset(rest[i - 1]) <= TrailingOffset(rest[j - 1]);
        }
      }
    }
  }

  /** The ranked results are in ascending offset order and are exactly the
      retrieved ones: nothing is added or dropped. */
  lemma {:induction false} RankSortsAndPermutes(ds: seq<Retrieved>)
    requires AllRankable(ds)
    ensures Ranked(Rank(ds))
    ensures multiset(Rank(ds)) == multiset(ds)
  {
    if ds != [] {
      RankSortsAndPermutes(ds[1..]);
      InsertRanked(ds[0], Rank(ds[1..]));
      MultisetTail(ds);
    }
  }

  /** Results already in ascending order keep their order: the sort is stable. */
  lemma {:induction false} RankKeepsRankedInput(ds: seq<Retrieved>)
    requires AllRankable(ds) && Ranked(ds)
    ensures Rank(ds) == ds
  {
    if ds != [] {
      RankKeepsRankedInput(ds[1..]);
      assert ds == [ds[0]] + ds[1..];
    }
  }

  /** The results whose trailing offset is `v`, in their order. */
  function WithOffset(ds: seq<Retrieved>, v: int): seq<Retrieved>
    requires AllRankable(ds)
  {
    if ds == [] then []
    else (if TrailingOffset(ds[0]) == v then [ds[0]] else []) + WithOffset(ds[1..], v)
  }

  /** Filtering a result followed by others filters the first, then the rest. */
  lemma WithOffsetCons(x: Retrieved, ds: seq<Retrieved>, v: int)
    requires Rankable(x) && AllRankable(ds)
    ensures AllRankable([x] + ds)
    ensures WithOffset([x] + ds, v) == (if TrailingOffset(x) == v then [x] else []) + WithOffset(ds, v)
  {
    assert ([x] + ds)[1..] == ds;
  }

  /** Insertion puts `d` before every entry with its offset, since it stops
      at the first entry whose offset is not smaller. */
  lemma {:induction false} InsertBeforeEqual(d: Retrieved, ds: seq<Retrieved>, v: int)
    requires Rankable(d) && AllRankable(ds)
    ensures WithOffset(Insert(d, ds), v) ==
      (if TrailingOffset(d) == v then [d] else []) + WithOffset(ds, v)
    decreases |ds|
  {
    if ds == [] || TrailingOffset(d) <= TrailingOffset(ds[0]) {
      WithOffsetCons(d, ds, v);
    } else {
      InsertBeforeEqual(d, ds[1..], v);
      assert ds == [ds[0]] + ds[1..];
      PassSmaller(d, ds[0], ds[1..], Insert(d, ds[1..]), v);
    }
  }

  /** Passing over an entry with a smaller offset keeps `d` ahead of the
      entries with its own offset. */
  lemma PassSmaller(d: Retrieved, x: Retrieved, ds: seq<Retrieved>, rest: seq<Retrieved>, v: int)
    requires Rankable(d) && Rankable(x) && AllRankable(ds) && AllRankable(rest)
    requires TrailingOffset(x) < TrailingOffset(d)
    requires WithOffset(rest, v) == (if TrailingOffset(d) == v then [d] else []) + WithOffset(ds, v)
    ensures AllRankable([x] + ds)
    ensures WithOffset([x] + rest, v) ==
      (if TrailingOffset(d) == v then [d] else []) + WithOffset([x] + ds, v)
  {
    WithOffsetCons(x, rest, v);
    WithOffsetCons(x, ds, v);
  }

  /** The sort is stable: results with equal offsets keep the order the
      store returned them in. */
  lemma {:induction false} RankIsStable(ds: seq<Retrieved>, v: int)
    requires AllRankable(ds)
    ensures WithOffset(Rank(ds), v) == WithOffset(ds, v)
  {
    if ds != [] {
      RankIsStable(ds[1..], v);
      InsertBeforeEqual(ds[0], Rank(ds[1..]), v);
    }
  }

  /** No two different results share an offset. */
  predicate DistinctOffsets(ds: seq<Retrieved>)
    requires AllRankable(ds)
  {
    forall i, j :: 0 <= i < |ds| && 0 <= j < |ds| && TrailingOffset(ds[i]) == TrailingOffset(ds[j]) ==> ds[i] == ds[j]
  }

  /** Taking an element out of a sequence takes it out of its multiset. */
  lemma MultisetRemove(s: seq<Retrieved>, j: nat)
    requires j < |s|
    ensures multiset(s) == multiset(s[..j] + s[j + 1..]) + multiset{s[j]}
  {
    assert s == s[..j] + [s[j]] + s[j + 1..];
  }

  lemma MultisetTail(s: seq<Retrieved>)
    requires s != []
    ensures multiset(s) == multiset(s[1..]) + multiset{s[0]}
  {
    assert s == [s[0]] + s[1..];
  }

  lemma TailKeepsOrder(a: seq<Retrieved>)
    requires a != [] && AllRankable(a) && Ranked(a) && DistinctOffsets(a)
    ensures AllRankable(a[1..]) && Ranked(a[1..]) && DistinctOffsets(a[1..])
  {
    var t := a[1..];
    forall x, y | 0 <= x < |t| && 0 <= y < |t| && TrailingOffset(t[x]) == TrailingOffset(t[y])
      ensures t[x] == t[y]
    {
      assert t[x] == a[x + 1] && t[y] == a[y + 1];
    }
  }

  lemma MultisetCancel(m1: multiset<Retrieved>, m2: multiset<Retrieved>, x: Retrieved)
    requires m1 + multiset{x} == m2 + multiset{x}
    ensures m1 == m2
  {
    assert m1 == (m1 + multiset{x}) - multiset{x};
    assert m2 == (m2 + multiset{x}) - multiset{x};
  }

  lemma TailRanked(b: seq<Retrieved>)
    requires b != [] && AllRankable(b) && Ranked(b)
    ensures AllRankable(b[1..]) && Ranked(b[1..])
  {
    forall x, y | 0 <= x < y < |b[1..]|
      ensures TrailingOffset(b[1..][x]) <= TrailingOffset(b[1..][y])
    {
      assert b[1..][x] == b[x + 1] && b[1..][y] == b[y + 1];
    }
  }

  /** The smallest offset leads both arrangements, so they start alike. */
  lemma SameHead(a: seq<Retrieved>, b: seq<Retrieved>)
    requires a != [] && b != []
    requires AllRankable(a) && AllRankable(b) && Ranked(a) && Ranked(b)
    requires multiset(a) == multiset(b) && DistinctOffsets(a)
    ensures a[0] == b[0]
  {
    assert b[0] in multiset(a);
    var i :| 0 <= i < |a| && a[i] == b[0];
    assert a[0] in multiset(b);
    var j :| 0 <= j < |b| && b[j] == a[0];
    assert TrailingOffset(a[0]) <= TrailingOffset(a[i]);
    assert TrailingOffset(b[0]) <= TrailingOffset(b[j]);
  }

  /** Two ascending arrangements of the same results agree when no two
      results share an offset. */
  lemma {:induction false} RankedUnique(a: seq<Retrieved>, b: seq<Retrieved>)
    requires AllRankable(a) && AllRankable(b) && Ranked(a) && Ranked(b)
    requires multiset(a) == multiset(b) && DistinctOffsets(a)
    ensures a == b
    decreases |a|
  {
    if a != [] {
      assert |b| == |multiset(b)| == |a|;
      SameHead(a, b);
      MultisetTail(a);
      MultisetTail(b);
      MultisetCancel(multiset(a[1..]), multiset(b[1..]), a[0]);
      TailKeepsOrder(a);
      TailRanked(b);
      RankedUnique(a[1..], b[1..]);
    }
  }

  /** When no two results share an offset, the ranking does not depend on
      the order in which the vector store returned them. */
  lemma RankingIgnoresRetrievalOrder(a: seq<Retrieved>, b: seq<Retrieved>)
    requires AllRankable(a) && AllRankable(b)
    requires multiset(a) == multiset(b) && DistinctOffsets(a)
    ensures Rank(a) == Rank(b)
  {
    RankSortsAndPermutes(a);
    RankSortsAndPermutes(b);
    var ra := Rank(a);
    forall x, y | 0 <= x < |ra| && 0 <= y < |ra| && TrailingOffset(ra[x]) == TrailingOffset(ra[y])
      ensures ra[x] == ra[y]
    {
      assert ra[x] in multiset(a) && ra[y] in multiset(a);
      var i :| 0 <= i < |a| && a[i] == ra[x];
      var j :| 0 <= j < |a| && a[j] == ra[y];
    }
    RankedUnique(ra, Rank(b));
  }

  /** `results.map((r) => r.pageContent)` */
  function Contents(ds: seq<Retrieved>): seq<string>
  {
    seq(|ds|, i requires 0 <= i < |ds| => ds[i].pageContent)
  }

  /** The context: the ranked results' page contents joined by newlines. */
  function Context(results: seq<Retrieved>): string
    requires AllRankable(results)
  {
    Join(Contents(Rank(results)), "\n")
  }

  lemma {:induction false} ContentsPermute(a: seq<Retrieved>, b: seq<Retrieved>)
    requires multiset(a) == multiset(b)
    ensures multiset(Contents(a)) == multiset(Contents(b))
    decreases |a|
  {
    if a != [] {
      assert a[0] in multiset(b);
      var j :| 0 <= j < |b| && b[j] == a[0];
      var b' := b[..j] + b[j + 1..];
      MultisetTail(a);
      MultisetRemove(b, j);
      MultisetCancel(multiset(a[1..]), multiset(b'), a[0]);
      ContentsPermute(a[1..], b');
      ContentsTail(a);
      ContentsRemove(b, j);
    }
  }

  lemma ContentsTail(s: seq<Retrieved>)
    requires s != []
    ensures multiset(Contents(s)) == multiset(Contents(s[1..])) + multiset{s[0].pageContent}
  {
    ContentsRemove(s, 0);
    assert s[..0] + s[1..] == s[1..];
  }

  /** Taking a result out takes its page content out of the contents. */
  lemma ContentsRemove(s: seq<Retrieved>, j: nat)
    requires j < |s|
    ensures multiset(Contents(s)) == multiset(Contents(s[..j] + s[j + 1..])) + multiset{s[j].pageContent}
  {
    var c := Contents(s);
    var rest := s[..j] + s[j + 1..];
    assert Contents(rest) == c[..j] + c[j + 1..] by {
      forall i | 0 <= i < |rest| ensures Contents(rest)[i] == (c[..j] + c[j + 1..])[i] {
        if i < j {
          assert rest[i] == s[i];
        } else {
          assert rest[i] == s[i + 1];
        }
      }
    }
    assert c == c[..j] + [c[j]] + c[j + 1..];
  }

  /** The context holds every retrieved page content exactly as often as it
      was retrieved, and nothing else. */
  lemma ContextPartsAreRetrieved(results: seq<Retrieved>)
    requires AllRankable(results)
    ensures multiset(Contents(Rank(results))) == multiset(Contents(results))
  {
    RankSortsAndPermutes(results);
    ContentsPermute(Rank(results), results);
  }

  /** The placeholder `promptTemplate` fills. */
  const Placeholder: string := "{{{context}}}"

  /** `String.prototype.replace` reads `$$`, `$&`, `` $` `` and `$'` in the
      replacement as substitution patterns; a context without them is
      inserted literally. */
  predicate LiteralReplacement(rep: string)
  {
    forall i :: 0 <= i < |rep| - 1 && rep[i] == '$' ==> rep[i + 1] !in {'$', '&', '`', '\''}
  }

  /** `prompt.replace(/{{{context}}}/g, context)` */
  function PromptTemplate(prompt: string, context: string): string
    requires LiteralReplacement(context)
  {
    ReplaceAll(prompt, Placeholder, context)
  }

  /** A prompt without the placeholder is sent unchanged: the retrieved
      context is then not shown to the model at all. */
  lemma PromptWithoutPlaceholder(prompt: string, context: string)
    requires LiteralReplacement(context) && !Contains(prompt, Placeholder)
    ensures PromptTemplate(prompt, context) == prompt
  {
    ReplaceAllAbsent(prompt, Placeholder, context);
  }

  /** The text before the first placeholder is kept, the placeholder becomes
      the context, and the rest of the prompt is filled the same way. */
  lemma PromptFillsFirstPlaceholder(prompt: string, context: string)
    requires LiteralReplacement(context) && Contains(prompt, Placeholder)
    ensures var q := IndexOf(prompt, Placeholder);
      0 <= q && q + |Placeholder| <= |prompt| &&
      PromptTemplate(prompt, context) ==
        prompt[..q] + context + PromptTemplate(prompt[q + |Placeholder|..], context)
  {
    IndexOfIsFirst(prompt, Placeholder);
    var q := IndexOf(prompt, Placeholder);
    var a, b := prompt[..q], prompt[q + |Placeholder|..];
    assert prompt == a + Placeholder + b;
    ReplaceAllSplice(a, Placeholder, b, context);
  }

  /** The call `knowledgeLoader` makes: the provider chosen from the model
      id, temperature 0 whatever the request asked for, and the filled
      system prompt, an acknowledgement and the question. */
  function KnowledgeCall(modelId: string, requestTemperature: real, prompt: string, question: string,
                         results: seq<Retrieved>): ModelCall
    requires AllRankable(results) && LiteralReplacement(Context(results))
  {
    ModelCall(ProviderFor(modelId), modelId, 0.0,
      [SystemMessage(PromptTemplate(prompt, Context(results))),
       AIMessage("Sure, please show me your question"),
       HumanMessage(question)])
  }

  /** The question is the last thing the model reads, after the system
      prompt and a fixed acknowledgement; the request temperature plays no
      part. */
  lemma KnowledgeCallShape(modelId: string, t1: real, t2: real, prompt: string, question: string,
                           results: seq<Retrieved>)
    requires AllRankable(results) && LiteralReplacement(Context(results))
    ensures var call := KnowledgeCall(modelId, t1, prompt, question, results);
      |call.messages| == 3 &&
      call.messages[0] == SystemMessage(PromptTemplate(prompt, Context(results))) &&
      call.messages[1] == AIMessage("Sure, please show me your question") &&
      call.messages[2] == HumanMessage(question) &&
      call.temperature == 0.0 &&
      (call.provider == Anthropic <==> Contains(modelId, "claude")) &&
      call == KnowledgeCall(modelId, t2, prompt, question, results)
  {
  }

  lemma ContainsWithin(a: string, x: string, c: string, p: string)
    requires Contains(x, p)
    ensures Contains(a + x + c, p)
  {
    var i :| 0 <= i <= |x| && OccursAt(x, p, i);
    var s := a + x + c;
    assert s[|a| + i..|a| + i + |p|] == x[i..i + |p|];
    assert OccursAt(s, p, |a| + i);
  }

  lemma {:induction false} JoinContainsPart(parts: seq<string>, sep: string, k: nat)
    requires k < |parts|
    ensures Contains(Join(parts, sep), parts[k])
  {
    if |parts| == 1 {
      assert OccursAt(parts[0], parts[0], 0);
    } else if k == 0 {
      ContainsWithin("", parts[0], sep + Join(parts[1..], sep), parts[0]) by {
        assert OccursAt(parts[0], parts[0], 0);
      }
      assert "" + parts[0] + (sep + Join(parts[1..], sep)) == Join(parts, sep);
    } else {
      JoinContainsPart(parts[1..], sep, k - 1);
      ContainsWithin(parts[0] + sep, Join(parts[1..], sep), "", parts[k]);
      assert parts[0] + sep + Join(parts[1..], sep) + "" == Join(parts, sep);
    }
  }

  /** When the prompt has the placeholder, every retrieved page content
      reaches the model inside the system message. */
  lemma RetrievedContentReachesModel(modelId: string, temperature: real, prompt: string, question: string,
                                     results: seq<Retrieved>, k: nat)
    requires AllRankable(results) && LiteralReplacement(Context(results))
    requires Contains(prompt, Placeholder) && k < |results|
    ensures Contains(KnowledgeCall(modelId, temperature, prompt, question, results).messages[0].text,
                     results[k].pageContent)
  {
    var context := Context(results);
    PromptFillsFirstPlaceholder(prompt, context);
    var q := IndexOf(prompt, Placeholder);
    ContextPartsAreRetrieved(results);
    var ranked := Contents(Rank(results));
    assert Contents(results)[k] == results[k].pageContent;
    assert results[k].pageContent in multiset(Contents(results));
    var m :| 0 <= m < |ranked| && ranked[m] == results[k].pageContent;
    JoinContainsPart(ranked, "\n", m);
    ContainsWithin(prompt[..q], context, PromptTemplate(prompt[q + |Placeholder|..], context), results[k].pageContent);
  }
}
