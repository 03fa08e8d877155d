/**
  The scope-aware JSON text splitter (`CustomJSONTextSplitter`).

  The foreign collaborators are inputs here: what `acorn.parse` made of a text
  (a `ParseOutcome`), what `acorn.parseExpressionAt` made of it (a span tree,
  or nothing when it throws), and the chunk list the generic recursive
  character splitter produced. The splitter's own work is modelled: the gate
  on the parse result, the key path enclosing an offset, and the annotation
  of every chunk with its offsets, scopes and line range.
*/
module ScopeSplitter {
  import opened Wrappers
  import opened Strings
  import opened Js

  // ---------------------------------------------------------------------
  // The validity gate
  // ---------------------------------------------------------------------

  datatype ExpressionType = ObjectExpression | OtherExpression

  datatype Statement = ExpressionStatement(expression: ExpressionType) | OtherStatement

  /** The result of parsing a text as a program. */
  datatype ParseOutcome = SyntaxError | Program(body: seq<Statement>)

  /** `isValidJsObject`: the text parsed as a program, and its first
      statement is an expression statement whose expression is an object
      expression. A program reads a leading `{` as a block, so only a
      parenthesised object such as `({"a": 1})` passes; a bare `{"a": 1}` is
      a syntax error and `{a: 1}` a block holding a labelled statement. */
  function IsValidJsObject(p: ParseOutcome): (r: bool)
    ensures p.SyntaxError? ==> !r
    ensures p.Program? && p.body == [] ==> !r
    ensures r <==> p.Program? && |p.body| > 0 && p.body[0] == ExpressionStatement(ObjectExpression)
  {
    match p
    case SyntaxError => false
    case Program(body) =>
      if |body| == 0 then false
      else body[0].ExpressionStatement? && body[0].expression.ObjectExpression?
  }

  // ---------------------------------------------------------------------
  // Scope resolution over the span tree
  // ---------------------------------------------------------------------

  /** A property key: an identifier (`{a: 1}`) or a literal (`{"a": 1}`). */
  datatype Key = Identifier(name: string) | Literal(text: string)

  /** `key.value` as `join` renders it: an identifier node has no `value`
      property, and `join` renders the resulting undefined as "". */
  function KeyValue(k: Key): string
  {
    match k
    case Identifier(_) => ""
    case Literal(text) => text
  }

  /** An expression node with its character span: an object expression with
      its properties, or any other expression. */
  datatype Node =
    | ObjectNode(start: int, end: int, properties: seq<Property>)
    | LeafNode(start: int, end: int)

  datatype Property = Property(start: int, end: int, key: Key, value: Node)

  /** The node's span contains the offset; both bounds are inclusive. */
  predicate Spans(n: Node, index: int)
  {
    n.start <= index <= n.end
  }

  /** The property's own span or its value's span contains the offset. */
  predicate Encloses(p: Property, index: int)
  {
    (p.start <= index <= p.end) || Spans(p.value, index)
  }

  /** The position of the first property that encloses the offset. */
  function FirstEnclosing(props: seq<Property>, index: int): (r: Option<nat>)
    ensures r.Some? ==> r.value < |props| && Encloses(props[r.value], index)
  {
    if props == [] then None
    else if Encloses(props[0], index) then Some(0)
    else match FirstEnclosing(props[1..], index)
      case None => None
      case Some(j) => Some(j + 1)
  }

  /** No property before the one found encloses the offset, and nothing is
      found exactly when no property encloses it. */
  lemma {:induction false} FirstEnclosingIsFirst(props: seq<Property>, index: int)
    ensures var r := FirstEnclosing(props, index);
      (r.Some? ==> forall j :: 0 <= j < r.value ==> !Encloses(props[j], index)) &&
      (r.None? <==> forall j :: 0 <= j < |props| ==> !Encloses(props[j], index))
  {
    if props != [] && !Encloses(props[0], index) {
      FirstEnclosingIsFirst(props[1..], index);
      assert forall j :: 1 <= j < |props| ==> props[j] == props[1..][j - 1];
    }
  }

  /** `findScope`: descend from `node` into the first property enclosing
      `index`, appending its key, until no property encloses it. */
  function FindScope(node: Node, index: int, scope: seq<Key>): (r: seq<Key>)
    ensures scope <= r
    ensures !Spans(node, index) || node.LeafNode? ==> r == scope
    decreases node
  {
    if Spans(node, index) && node.ObjectNode? then
      match FirstEnclosing(node.properties, index)
      case None => scope
      case Some(j) =>
        assert node.properties[j] in node.properties;
        FindScope(node.properties[j].value, index, scope + [node.properties[j].key])
    else scope
  }

  /** The scope found from an initial scope is that scope followed by the
      scope found from nothing. */
  lemma {:induction false} FindScopeRelative(node: Node, index: int, scope: seq<Key>)
    ensures FindScope(node, index, scope) == scope + FindScope(node, index, [])
    decreases node
  {
    if Spans(node, index) && node.ObjectNode? {
      match FirstEnclosing(node.properties, index)
      case None =>
      case Some(j) =>
        var p := node.properties[j];
        assert p in node.properties;
        FindScopeRelative(p.value, index, scope + [p.key]);
        FindScopeRelative(p.value, index, [p.key]);
        assert FindScope(node, index, scope) == FindScope(p.value, index, scope + [p.key]);
        assert FindScope(node, index, []) == FindScope(p.value, index, [] + [p.key]);
        assert [] + [p.key] == [p.key];
        assert scope + [p.key] + FindScope(p.value, index, []) == scope + ([p.key] + FindScope(p.value, index, []));
    }
  }

  /** `keys` names a chain of properties, each enclosing `index` and each
      inside the value of the one before, that cannot be extended: at the
      node reached, no property encloses `index`. */
  ghost predicate IsMaximalDescent(node: Node, index: int, keys: seq<Key>)
    decreases keys
  {
    if keys == [] then
      !(node.ObjectNode? && Spans(node, index) &&
        exists j :: 0 <= j < |node.properties| && Encloses(node.properties[j], index))
    else
      node.ObjectNode? && Spans(node, index) &&
      exists j :: 0 <= j < |node.properties| && Encloses(node.properties[j], index) &&
        node.properties[j].key == keys[0] &&
        IsMaximalDescent(node.properties[j].value, index, keys[1..])
  }

  /** Every key `findScope` reports belongs to an enclosing property, one per
      object level, down to the innermost enclosing object. */
  lemma {:induction false} FindScopeIsMaximalDescent(node: Node, index: int)
    ensures IsMaximalDescent(node, index, FindScope(node, index, []))
    decreases node
  {
    if Spans(node, index) && node.ObjectNode? {
      FirstEnclosingIsFirst(node.properties, index);
      match FirstEnclosing(node.properties, index)
      case None =>
      case Some(j) =>
        var p := node.properties[j];
        assert p in node.properties;
        FindScopeRelative(p.value, index, [p.key]);
        FindScopeIsMaximalDescent(p.value, index);
        var keys := FindScope(node, index, []);
        assert [] + [p.key] == [p.key];
        assert keys == FindScope(p.value, index, [p.key]);
        assert keys == [p.key] + FindScope(p.value, index, []);
        assert keys[1..] == FindScope(p.value, index, []);
    }
  }

  /** The span tree of a parsed object: every span is ordered, a property's
      value lies inside the property, and sibling properties do not overlap. */
  ghost predicate WellFormed(node: Node)
    decreases node
  {
    node.start <= node.end &&
    (node.ObjectNode? ==>
      (forall j :: 0 <= j < |node.properties| ==>
        node.properties[j].start <= node.properties[j].value.start &&
        node.properties[j].value.end <= node.properties[j].end &&
        WellFormed(node.properties[j].value)) &&
      (forall j, k :: 0 <= j < k < |node.properties| ==>
        node.properties[j].end < node.properties[k].start))
  }

  /** In a well-formed object only one property can enclose an offset. */
  lemma OnlyEnclosingProperty(node: Node, index: int, j: nat)
    requires WellFormed(node) && node.ObjectNode?
    requires j < |node.properties| && Encloses(node.properties[j], index)
    ensures FirstEnclosing(node.properties, index) == Some(j)
  {
    var first := FirstEnclosing(node.properties, index);
    FirstEnclosingIsFirst(node.properties, index);
    assert first.Some?;
  }

  /** In a well-formed tree there is exactly one maximal descent, and
      `findScope` computes it. */
  lemma {:induction false} MaximalDescentIsFindScope(node: Node, index: int, keys: seq<Key>)
    requires WellFormed(node)
    requires IsMaximalDescent(node, index, keys)
    ensures keys == FindScope(node, index, [])
    decreases keys
  {
    if keys == [] {
      if Spans(node, index) && node.ObjectNode? {
        FirstEnclosingIsFirst(node.properties, index);
        assert FirstEnclosing(node.properties, index).None?;
      }
    } else {
      var props := node.properties;
      var j :| 0 <= j < |props| && Encloses(props[j], index) && props[j].key == keys[0] &&
               IsMaximalDescent(props[j].value, index, keys[1..]);
      OnlyEnclosingProperty(node, index, j);
      assert WellFormed(props[j].value);
      MaximalDescentIsFindScope(props[j].value, index, keys[1..]);
      FindScopeRelative(props[j].value, index, [props[j].key]);
      assert [] + [props[j].key] == [props[j].key];
      assert FindScope(node, index, []) == FindScope(props[j].value, index, [props[j].key]);
    }
  }

  /** The tree of `{"a": {"b": 1}}`, as `parseExpressionAt` spans it. */
  function NestedExampleTree(): Node
  {
    ObjectNode(0, 15, [
      Property(1, 14, Literal("a"), ObjectNode(6, 14, [
        Property(7, 13, Literal("b"), LeafNode(12, 13))
      ]))
    ])
  }

  /** At the offset of `1` the scope is `a` then `b`; before the first key
      it is empty. */
  lemma NestedExampleScopes()
    ensures WellFormed(NestedExampleTree())
    ensures FindScope(NestedExampleTree(), 12, []) == [Literal("a"), Literal("b")]
    ensures ScopeMetadata(FindScope(NestedExampleTree(), 12, []), 12) == "a>b>12"
    ensures FindScope(NestedExampleTree(), 0, []) == []
  {
    var t := NestedExampleTree();
    var inner := t.properties[0].value;
    assert FirstEnclosing(inner.properties, 12) == Some(0);
    assert FirstEnclosing(t.properties, 12) == Some(0);
    assert FindScope(inner.properties[0].value, 12, [Literal("a"), Literal("b")]) == [Literal("a"), Literal("b")];
    assert FirstEnclosing(t.properties, 0) == None;
    assert NatToString(12) == "12" by {
      assert NatToString(1) == "1";
      assert NatToString(2) == "2";
    }
    assert KeyValues([Literal("a"), Literal("b")]) == ["a", "b"];
  }

  // ---------------------------------------------------------------------
  // Chunk annotation (`createDocuments`)
  // ---------------------------------------------------------------------

  /** One input text with what the foreign collaborators made of it. */
  datatype TextInput = TextInput(
    text: string,
    parsed: ParseOutcome,        // `acorn.parse(text)`
    expression: Option<Node>,    // `acorn.parseExpressionAt(text)`; None when it throws
    chunks: seq<string>)         // `splitText(text)`

  datatype Document = Document(pageContent: string, metadata: map<string, JsValue>)

  /** Why `createDocuments` throws; each names the position of the text. */
  datatype SplitError =
    | MalformedInput(text: nat)         // the validity gate failed
    | ExpressionParseFailed(text: nat)  // `getScopeInfo` could not parse the text
    | MissingMetadata(text: nat)        // `_metadatas[i]` is undefined

  function KeyValues(scope: seq<Key>): seq<string>
  {
    if scope == [] then [] else [KeyValue(scope[0])] + KeyValues(scope[1..])
  }

  /** `scope.map(item => item.value).join('>')` */
  function ScopeString(scope: seq<Key>): string
  {
    Join(KeyValues(scope), ">")
  }

  /** The `startScope`/`endScope` metadata string: the key path, `>`, the offset. */
  function ScopeMetadata(scope: seq<Key>, offset: int): string
  {
    ScopeString(scope) + ">" + IntToString(offset)
  }

  /** The offset a scope metadata string ends with is the one it was made
      from, whatever the keys contain. */
  lemma ScopeMetadataOffset(scope: seq<Key>, offset: int)
    ensures IsDecimal(LastSegment(ScopeMetadata(scope, offset), '>'))
    ensures ParseInt(LastSegment(ScopeMetadata(scope, offset), '>')) == offset
  {
    var digits := IntToString(offset);
    IntToStringChars(offset);
    assert '>' !in digits;
    assert ScopeMetadata(scope, offset) == ScopeString(scope) + ['>'] + digits;
    LastSegmentAfter(ScopeString(scope), '>', digits);
    IntToStringRoundTrip(offset);
  }

  /** The wrapped page content of a chunk. */
  function PageContent(startScope: string, chunk: string, endScope: string): string
  {
    ">>>startScopeStr:\"" + startScope + "\"<<< content:" + chunk + " >>>endScopeStr:\"" + endScope + "\"<<<"
  }

  /** `if (prevChunk)`: a previous chunk exists and is not the empty string. */
  predicate HasPrev(chunks: seq<string>, k: int)
    requires 0 <= k <= |chunks|
  {
    k > 0 && chunks[k - 1] != ""
  }

  /** `indexChunk`: 0 without a previous chunk, else the first occurrence of
      the chunk in the text (-1 when it does not occur). */
  function ChunkStart(input: TextInput, k: nat): int
    requires k < |input.chunks|
  {
    if HasPrev(input.chunks, k) then IndexOf(input.text, input.chunks[k]) else 0
  }

  /** `indexEndChunk` */
  function ChunkEnd(input: TextInput, k: nat): int
    requires k < |input.chunks|
  {
    if HasPrev(input.chunks, k) then ChunkStart(input, k) + |input.chunks[k]| else 0
  }

  /** The newlines in the text between the end of the previous chunk's first
      occurrence and the start of this chunk (none when they overlap). */
  function GapNewlines(input: TextInput, k: nat): nat
    requires k < |input.chunks|
  {
    if HasPrev(input.chunks, k) then
      var prev := input.chunks[k - 1];
      Count(Slice(input.text, IndexOf(input.text, prev) + |prev|, ChunkStart(input, k)), '\n')
    else 0
  }

  /** `lineCounterIndex` when chunk `k` is reached. */
  function LineCounterBefore(input: TextInput, k: nat): int
    requires k <= |input.chunks|
  {
    if k == 0 then 1
    else LineCounterBefore(input, k - 1) + GapNewlines(input, k - 1) + Count(input.chunks[k - 1], '\n')
  }

  /** `loc.lines.from` of chunk `k` */
  function LineFrom(input: TextInput, k: nat): int
    requires k < |input.chunks|
  {
    LineCounterBefore(input, k) + GapNewlines(input, k)
  }

  /** `loc.lines.to` of chunk `k` */
  function LineTo(input: TextInput, k: nat): int
    requires k < |input.chunks|
  {
    LineFrom(input, k) + Count(input.chunks[k], '\n')
  }

  /** Line ranges start at line 1, never run backwards, and a chunk starts
      no earlier than the line its predecessor ended on. */
  lemma {:induction false} LineRangesOrdered(input: TextInput, k: nat)
    requires k < |input.chunks|
    ensures 1 <= LineFrom(input, k) <= LineTo(input, k)
    ensures k == 0 ==> LineFrom(input, k) == 1
    ensures k + 1 < |input.chunks| ==> LineTo(input, k) <= LineFrom(input, k + 1)
  {
    if k > 0 {
      LineRangesOrdered(input, k - 1);
    }
  }

  /** The chunks cover the text in order: the first starts the text, every
      chunk is non-empty and occurs, and each first occurrence starts at or
      after the end of the previous one. */
  predicate LaidOutInOrder(text: string, chunks: seq<string>)
  {
    (|chunks| > 0 ==> IndexOf(text, chunks[0]) == 0) &&
    (forall k :: 0 <= k < |chunks| ==> chunks[k] != "" && IndexOf(text, chunks[k]) >= 0) &&
    (forall k :: 0 < k < |chunks| ==> FollowsPrevious(text, chunks, k))
  }

  /** Chunk `k` first occurs at or after the end of chunk `k - 1`'s first occurrence. */
  predicate FollowsPrevious(text: string, chunks: seq<string>, k: nat)
    requires 0 < k < |chunks|
  {
    IndexOf(text, chunks[k]) >= IndexOf(text, chunks[k - 1]) + |chunks[k - 1]|
  }

  /** For chunks laid out in order, `loc.lines.from` is the true 1-based line
      number of the chunk's first character in the text. */
  lemma {:induction false} LineFromIsLineOfStart(input: TextInput, k: nat)
    requires k < |input.chunks|
    requires LaidOutInOrder(input.text, input.chunks)
    ensures 0 <= IndexOf(input.text, input.chunks[k]) <= |input.text|
    ensures LineFrom(input, k) == 1 + CountIn(input.text, '\n', 0, IndexOf(input.text, input.chunks[k]))
  {
    var text, chunks := input.text, input.chunks;
    if k > 0 {
      LineFromIsLineOfStart(input, k - 1);
      assert FollowsPrevious(text, chunks, k);
      assert chunks[k - 1] != "" && IndexOf(text, chunks[k]) >= 0;
      LineFromOfFollowingChunk(input, k);
    }
  }

  /** The inductive step: when chunk `k` follows chunk `k - 1` and the line
      of chunk `k - 1` is right, so is the line of chunk `k`. */
  lemma LineFromOfFollowingChunk(input: TextInput, k: nat)
    requires 0 < k < |input.chunks|
    requires input.chunks[k - 1] != "" && IndexOf(input.text, input.chunks[k - 1]) >= 0
    requires IndexOf(input.text, input.chunks[k]) >= 0
    requires FollowsPrevious(input.text, input.chunks, k)
    requires LineFrom(input, k - 1) == 1 + CountIn(input.text, '\n', 0, IndexOf(input.text, input.chunks[k - 1]))
    ensures LineFrom(input, k) == 1 + CountIn(input.text, '\n', 0, IndexOf(input.text, input.chunks[k]))
  {
    var text, chunks := input.text, input.chunks;
    var p := IndexOf(text, chunks[k]);
    var q := IndexOf(text, chunks[k - 1]);
    var e := q + |chunks[k - 1]|;
    LineFromStep(input, k);
    GapBetweenLaidOutChunks(input, k);
    IndexOfIsFirst(text, chunks[k - 1]);
    CountOccurrence(text, chunks[k - 1], '\n', q);
    CountInSplit(text, '\n', 0, q, e);
    CountInSplit(text, '\n', 0, e, p);
  }

  /** The line counter starts at 1 and the first chunk is never searched
      for, so text before the first chunk is not counted: a leading newline
      puts the chunk on line 2, yet its range starts at line 1. */
  lemma LeadingNewlineNotCounted()
    ensures var input := TextInput("\n({a: 1})", Program([ExpressionStatement(ObjectExpression)]), None, ["({a: 1})"]);
      IndexOf(input.text, input.chunks[0]) == 1 &&
      1 + CountIn(input.text, '\n', 0, 1) == 2 &&
      LineFrom(input, 0) == 1
  {
    var text, chunk := "\n({a: 1})", "({a: 1})";
    assert !OccursAt(text, chunk, 0) by {
      assert text[0] != chunk[0];
    }
    assert OccursAt(text, chunk, 1) by {
      assert text[1..1 + |chunk|] == chunk;
    }
  }

  /** `loc.lines.from` advances by the previous chunk's newlines and the gap. */
  lemma LineFromStep(input: TextInput, k: nat)
    requires 0 < k < |input.chunks|
    ensures LineFrom(input, k) == LineFrom(input, k - 1) + Count(input.chunks[k - 1], '\n') + GapNewlines(input, k)
  {
  }

  /** Between two chunks laid out in order, the gap is the text between the
      end of the first and the start of the second. */
  lemma GapBetweenLaidOutChunks(input: TextInput, k: nat)
    requires 0 < k < |input.chunks|
    requires input.chunks[k - 1] != ""
    requires 0 <= IndexOf(input.text, input.chunks[k - 1])
    requires IndexOf(input.text, input.chunks[k]) >= IndexOf(input.text, input.chunks[k - 1]) + |input.chunks[k - 1]|
    requires IndexOf(input.text, input.chunks[k]) >= 0
    ensures IndexOf(input.text, input.chunks[k]) <= |input.text|
    ensures GapNewlines(input, k) ==
      CountIn(input.text, '\n', IndexOf(input.text, input.chunks[k - 1]) + |input.chunks[k - 1]|, IndexOf(input.text, input.chunks[k]))
  {
    var p := IndexOf(input.text, input.chunks[k]);
    var e := IndexOf(input.text, input.chunks[k - 1]) + |input.chunks[k - 1]|;
    assert ChunkStart(input, k) == p;
    CountSlice(input.text, '\n', e, p);
  }

  /** The scope at the chunk's start; empty without a previous chunk. */
  function StartScope(input: TextInput, k: nat): seq<Key>
    requires k < |input.chunks|
  {
    if HasPrev(input.chunks, k) && input.expression.Some? then
      FindScope(input.expression.value, ChunkStart(input, k), [])
    else []
  }

  /** The scope at the chunk's end; empty without a previous chunk. */
  function EndScope(input: TextInput, k: nat): seq<Key>
    requires k < |input.chunks|
  {
    if HasPrev(input.chunks, k) && input.expression.Some? then
      FindScope(input.expression.value, ChunkEnd(input, k), [])
    else []
  }

  /** `_metadatas[i]`, where an empty metadata list stands for `{}` per text. */
  function BaseMetadata(metadatas: seq<map<string, JsValue>>, i: nat): map<string, JsValue>
    requires |metadatas| == 0 || i < |metadatas|
  {
    if |metadatas| > 0 then metadatas[i] else map[]
  }

  /** The `loc` object: a copy of the caller's `loc` when that is an object,
      else `{}`, with `lines` set. */
  function LocWithLines(base: map<string, JsValue>, from: int, to: int): map<string, JsValue>
  {
    var loc := if "loc" in base && base["loc"].Obj? then base["loc"].fields else map[];
    loc["lines" := Obj(map["from" := Num(from), "to" := Num(to)])]
  }

  /** `loc.lines` holds the line range; every other field of the caller's
      `loc` object is kept, and a `loc` that is not an object is dropped. */
  lemma LocWithLinesFields(base: map<string, JsValue>, from: int, to: int)
    ensures var r := LocWithLines(base, from, to);
      "lines" in r && r["lines"] == Obj(map["from" := Num(from), "to" := Num(to)]) &&
      ("loc" in base && base["loc"].Obj? ==>
        r.Keys == base["loc"].fields.Keys + {"lines"} &&
        forall f :: f in base["loc"].fields && f != "lines" ==> r[f] == base["loc"].fields[f]) &&
      (!("loc" in base && base["loc"].Obj?) ==> r.Keys == {"lines"})
  {
  }

  /** `{..._metadatas[i], loc, startScope, endScope}`: the caller's fields
      are kept, and the three fields written last win. */
  function ChunkMetadata(base: map<string, JsValue>, from: int, to: int,
                         startScope: seq<Key>, startOffset: int,
                         endScope: seq<Key>, endOffset: int): map<string, JsValue>
  {
    base["loc" := Obj(LocWithLines(base, from, to))]
        ["startScope" := Str(ScopeMetadata(startScope, startOffset))]
        ["endScope" := Str(ScopeMetadata(endScope, endOffset))]
  }

  /** The chunk metadata has the caller's keys plus the three written ones;
      the caller's other fields are unchanged, and the written fields hold
      the line range and the two scope strings. */
  lemma ChunkMetadataFields(base: map<string, JsValue>, from: int, to: int,
                            startScope: seq<Key>, startOffset: int,
                            endScope: seq<Key>, endOffset: int)
    ensures var r := ChunkMetadata(base, from, to, startScope, startOffset, endScope, endOffset);
      r.Keys == base.Keys + {"loc", "startScope", "endScope"} &&
      (forall f :: f in base && f !in {"loc", "startScope", "endScope"} ==> r[f] == base[f]) &&
      r["loc"] == Obj(LocWithLines(base, from, to)) &&
      r["startScope"] == Str(ScopeMetadata(startScope, startOffset)) &&
      r["endScope"] == Str(ScopeMetadata(endScope, endOffset))
  {
  }

  /** The document made for chunk `k` of text `i`, or the error that
      processing that chunk throws. */
  function ChunkDocument(input: TextInput, metadatas: seq<map<string, JsValue>>, i: nat, k: nat): Result<Document, SplitError>
    requires k < |input.chunks|
  {
    if HasPrev(input.chunks, k) && input.expression.None? then Failure(ExpressionParseFailed(i))
    else if |metadatas| > 0 && i >= |metadatas| then Failure(MissingMetadata(i))
    else
      Success(Document(
        PageContent(ScopeString(StartScope(input, k)), input.chunks[k], ScopeString(EndScope(input, k))),
        ChunkMetadata(BaseMetadata(metadatas, i), LineFrom(input, k), LineTo(input, k),
                      StartScope(input, k), ChunkStart(input, k),
                      EndScope(input, k), ChunkEnd(input, k))))
  }

  /** Sequencing of two steps that may throw: the first throw wins, and the
      documents of the second follow those of the first. */
  function Then(first: Result<seq<Document>, SplitError>, next: Result<seq<Document>, SplitError>): (r: Result<seq<Document>, SplitError>)
    ensures first.Failure? ==> r == first
    ensures first.Success? && next.Failure? ==> r == Failure(next.error)
    ensures first.Success? && next.Success? ==> r == Success(first.value + next.value)
  {
    match first
    case Failure(e) => Failure(e)
    case Success(ds) =>
      match next
      case Failure(e) => Failure(e)
      case Success(ts) => Success(ds + ts)
  }

  function AsList(r: Result<Document, SplitError>): Result<seq<Document>, SplitError>
  {
    match r
    case Failure(e) => Failure(e)
    case Success(d) => Success([d])
  }

  /** What processing each chunk `k..` of text `i` gives, in chunk order. */
  function ChunkResults(input: TextInput, metadatas: seq<map<string, JsValue>>, i: nat, k: nat): (rs: seq<Result<Document, SplitError>>)
    requires k <= |input.chunks|
    decreases |input.chunks| - k
    ensures |rs| == |input.chunks| - k
  {
    if k == |input.chunks| then []
    else [ChunkDocument(input, metadatas, i, k)] + ChunkResults(input, metadatas, i, k + 1)
  }

  lemma {:induction false} ChunkResultsAt(input: TextInput, metadatas: seq<map<string, JsValue>>, i: nat, j: nat, k: nat)
    requires j <= k < |input.chunks|
    ensures ChunkResults(input, metadatas, i, j)[k - j] == ChunkDocument(input, metadatas, i, k)
    decreases k - j
  {
    var rs := ChunkResults(input, metadatas, i, j);
    assert rs == [ChunkDocument(input, metadatas, i, j)] + ChunkResults(input, metadatas, i, j + 1);
    if j < k {
      ChunkResultsAt(input, metadatas, i, j + 1, k);
      assert rs[k - j] == ChunkResults(input, metadatas, i, j + 1)[k - (j + 1)];
    }
  }

  /** The documents of the steps `k..`, in order; the first step that
      throws decides the outcome. */
  function Collect(rs: seq<Result<Document, SplitError>>, k: nat): Result<seq<Document>, SplitError>
    requires k <= |rs|
    decreases |rs| - k
  {
    if k == |rs| then Success([])
    else Then(AsList(rs[k]), Collect(rs, k + 1))
  }

  /** The documents of the chunks of text `i`. */
  function ChunkDocuments(input: TextInput, metadatas: seq<map<string, JsValue>>, i: nat): Result<seq<Document>, SplitError>
  {
    Collect(ChunkResults(input, metadatas, i, 0), 0)
  }

  /** The documents of text `i`, after the validity gate. */
  function TextDocuments(input: TextInput, metadatas: seq<map<string, JsValue>>, i: nat): Result<seq<Document>, SplitError>
  {
    if !IsValidJsObject(input.parsed) then Failure(MalformedInput(i))
    else ChunkDocuments(input, metadatas, i)
  }

  /** The documents of texts `j..`, in text order; the first text that
      throws decides the outcome. */
  function Documents(texts: seq<TextInput>, metadatas: seq<map<string, JsValue>>, j: nat): Result<seq<Document>, SplitError>
    requires j <= |texts|
    decreases |texts| - j
  {
    if j == |texts| then Success([])
    else Then(TextDocuments(texts[j], metadatas, j), Documents(texts, metadatas, j + 1))
  }

  /** Nothing collected yet: the outcome is that of the step. */
  lemma ThenNothing(next: Result<seq<Document>, SplitError>)
    ensures Then(Success([]), next) == next
  {
    if next.Success? {
      assert [] + next.value == next.value;
    }
  }

  /** Documents already collected followed by two steps is the same as
      the collected documents and the first step's, followed by the second. */
  lemma ThenShift(done: seq<Document>, step: seq<Document>, rest: Result<seq<Document>, SplitError>)
    ensures Then(Success(done), Then(Success(step), rest)) == Then(Success(done + step), rest)
  {
    if rest.Success? {
      assert done + (step + rest.value) == done + step + rest.value;
    }
  }

  /** A step that throws ends the collection with its error. */
  lemma CollectFails(done: seq<Document>, rs: seq<Result<Document, SplitError>>, k: nat)
    requires k < |rs| && rs[k].Failure?
    ensures Then(Success(done), Collect(rs, k)) == Failure(rs[k].error)
  {
  }

  /** A step that succeeds moves its document to the collected ones. */
  lemma CollectSucceeds(done: seq<Document>, rs: seq<Result<Document, SplitError>>, k: nat)
    requires k < |rs| && rs[k].Success?
    ensures Then(Success(done), Collect(rs, k)) == Then(Success(done + [rs[k].value]), Collect(rs, k + 1))
  {
    ThenShift(done, [rs[k].value], Collect(rs, k + 1));
  }

  /** After the last step the collected documents are the outcome. */
  lemma CollectDone(done: seq<Document>, rs: seq<Result<Document, SplitError>>)
    ensures Then(Success(done), Collect(rs, |rs|)) == Success(done)
  {
    assert done + [] == done;
  }

  /** The document of chunk `k`, given the values the loop computed for it. */
  lemma ChunkDocumentFrom(input: TextInput, metadatas: seq<map<string, JsValue>>, i: nat, k: nat,
                          from: int, startScope: seq<Key>, endScope: seq<Key>, start: int, end: int)
    requires k < |input.chunks|
    requires !(HasPrev(input.chunks, k) && input.expression.None?)
    requires |metadatas| == 0 || i < |metadatas|
    requires from == LineFrom(input, k)
    requires startScope == StartScope(input, k) && endScope == EndScope(input, k)
    requires start == ChunkStart(input, k) && end == ChunkEnd(input, k)
    ensures ChunkDocument(input, metadatas, i, k) ==
      Success(Document(
        PageContent(ScopeString(startScope), input.chunks[k], ScopeString(endScope)),
        ChunkMetadata(BaseMetadata(metadatas, i), from, from + Count(input.chunks[k], '\n'),
                      startScope, start, endScope, end)))
  {
  }

  // ---------------------------------------------------------------------
  // What `createDocuments` promises
  // ---------------------------------------------------------------------

  /** A text that fails the validity gate makes the whole call throw, so no
      document of any text is returned. */
  lemma {:induction false} InvalidTextYieldsNoDocuments(texts: seq<TextInput>, metadatas: seq<map<string, JsValue>>,
                                                        j: nat, bad: nat)
    requires j <= bad < |texts| && !IsValidJsObject(texts[bad].parsed)
    ensures Documents(texts, metadatas, j).Failure?
    decreases bad - j
  {
    if j < bad {
      InvalidTextYieldsNoDocuments(texts, metadatas, j + 1, bad);
    }
  }

  /** When no step throws, the collected documents are the steps' documents,
      one per step, in order. */
  lemma {:induction false} CollectOnePerStep(rs: seq<Result<Document, SplitError>>, k: nat)
    requires k <= |rs| && Collect(rs, k).Success?
    ensures |Collect(rs, k).value| == |rs| - k
    ensures forall j :: k <= j < |rs| ==> rs[j].Success? && Collect(rs, k).value[j - k] == rs[j].value
    decreases |rs| - k
  {
    if k < |rs| {
      CollectOnePerStep(rs, k + 1);
    }
  }

  /** A text that is annotated without a throw gives exactly one document per
      chunk, in chunk order, each the document of its chunk. */
  lemma OneDocumentPerChunk(input: TextInput, metadatas: seq<map<string, JsValue>>, i: nat)
    requires ChunkDocuments(input, metadatas, i).Success?
    ensures |ChunkDocuments(input, metadatas, i).value| == |input.chunks|
    ensures forall k :: 0 <= k < |input.chunks| ==>
      ChunkDocument(input, metadatas, i, k).Success? &&
      ChunkDocuments(input, metadatas, i).value[k] == ChunkDocument(input, metadatas, i, k).value
  {
    var rs := ChunkResults(input, metadatas, i, 0);
    CollectOnePerStep(rs, 0);
    forall k | 0 <= k < |input.chunks|
      ensures ChunkDocument(input, metadatas, i, k).Success?
      ensures ChunkDocuments(input, metadatas, i).value[k] == ChunkDocument(input, metadatas, i, k).value
    {
      ChunkResultsAt(input, metadatas, i, 0, k);
    }
  }

  /** The number of chunks of texts `j..`. */
  function TotalChunks(texts: seq<TextInput>, j: nat): nat
    requires j <= |texts|
    decreases |texts| - j
  {
    if j == |texts| then 0 else |texts[j].chunks| + TotalChunks(texts, j + 1)
  }

  /** Without a throw, the documents of texts `j..` are those of text `j`
      followed by those of the later texts, one per chunk of every text. */
  lemma {:induction false} DocumentsOnePerChunk(texts: seq<TextInput>, metadatas: seq<map<string, JsValue>>, j: nat)
    requires j <= |texts| && Documents(texts, metadatas, j).Success?
    ensures |Documents(texts, metadatas, j).value| == TotalChunks(texts, j)
    ensures j < |texts| ==>
      TextDocuments(texts[j], metadatas, j).Success? &&
      Documents(texts, metadatas, j + 1).Success? &&
      Documents(texts, metadatas, j).value ==
        TextDocuments(texts[j], metadatas, j).value + Documents(texts, metadatas, j + 1).value
    decreases |texts| - j
  {
    if j < |texts| {
      DocumentsOnePerChunk(texts, metadatas, j + 1);
      OneDocumentPerChunk(texts[j], metadatas, j);
    }
  }

  /** The first chunk of a text has no previous chunk: both scopes are empty
      and both offsets 0, so both metadata strings are ">0" and the page
      content is wrapped with empty scope strings. */
  lemma FirstChunkHasEmptyScopes(input: TextInput, metadatas: seq<map<string, JsValue>>, i: nat)
    requires |input.chunks| > 0 && ChunkDocument(input, metadatas, i, 0).Success?
    ensures var d := ChunkDocument(input, metadatas, i, 0).value;
      d.metadata["startScope"] == Str(">0") && d.metadata["endScope"] == Str(">0") &&
      d.pageContent == PageContent("", input.chunks[0], "")
  {
    assert IntToString(0) == "0";
    assert ScopeMetadata([], 0) == ">0";
  }

  /** `createDocuments`: for each text, in order, the validity gate, then
      the annotation of its chunks. A throw anywhere means no documents at all. */
  method CreateDocuments(texts: seq<TextInput>, metadatas: seq<map<string, JsValue>>)
    returns (r: Result<seq<Document>, SplitError>)
    ensures r == Documents(texts, metadatas, 0)
  {
    var documents: seq<Document> := [];
    var i := 0;
    ThenNothing(Documents(texts, metadatas, 0));
    while i < |texts|
      invariant 0 <= i <= |texts|
      invariant Then(Success(documents), Documents(texts, metadatas, i)) == Documents(texts, metadatas, 0)
    {
      if !IsValidJsObject(texts[i].parsed) {
        return Failure(MalformedInput(i));
      }
      var annotated := AnnotateChunks(texts[i], metadatas, i);
      if annotated.Failure? {
        return Failure(annotated.error);
      }
      ThenShift(documents, annotated.value, Documents(texts, metadatas, i + 1));
      documents := documents + annotated.value;
      i := i + 1;
    }
    assert documents + [] == documents;
    return Success(documents);
  }

  /** The inner loop of `createDocuments` over the chunks of text `i`: the
      line counter and the previous chunk are carried from one chunk to the
      next. */
  method AnnotateChunks(input: TextInput, metadatas: seq<map<string, JsValue>>, i: nat)
    returns (r: Result<seq<Document>, SplitError>)
    ensures r == ChunkDocuments(input, metadatas, i)
  {
    var documents: seq<Document> := [];
    var lineCounterIndex := 1;
    var prevChunk: Option<string> := None;
    var k := 0;
    ghost var results := ChunkResults(input, metadatas, i, 0);
    ThenNothing(Collect(results, 0));
    while k < |input.chunks|
      invariant 0 <= k <= |input.chunks|
      invariant Then(Success(documents), Collect(results, k)) == Collect(results, 0)
      invariant lineCounterIndex == LineCounterBefore(input, k)
      invariant prevChunk == if k == 0 then None else Some(input.chunks[k - 1])
    {
      var document;
      document, lineCounterIndex := AnnotateChunk(input, metadatas, i, k, prevChunk, lineCounterIndex);
      ChunkResultsAt(input, metadatas, i, 0, k);
      if document.Failure? {
        CollectFails(documents, results, k);
        return Failure(document.error);
      }
      CollectSucceeds(documents, results, k);
      documents := documents + [document.value];
      prevChunk := Some(input.chunks[k]);
      k := k + 1;
    }
    CollectDone(documents, results);
    return Success(documents);
  }

  /** One pass of the inner loop of `createDocuments`: the document of
      chunk `k` (or the error it throws) and the advanced line counter. */
  method AnnotateChunk(input: TextInput, metadatas: seq<map<string, JsValue>>, i: nat, k: nat,
                       prevChunk: Option<string>, lineCounterIndex: int)
    returns (r: Result<Document, SplitError>, nextLineCounterIndex: int)
    requires k < |input.chunks|
    requires prevChunk == if k == 0 then None else Some(input.chunks[k - 1])
    requires lineCounterIndex == LineCounterBefore(input, k)
    ensures r == ChunkDocument(input, metadatas, i, k)
    ensures r.Success? ==> nextLineCounterIndex == LineCounterBefore(input, k + 1)
  {
    var chunk := input.chunks[k];
    var thrown, indexChunk, indexEndChunk, startScope, endScope, numberOfIntermediateNewLines :=
      LocateChunk(input, k, prevChunk);
    if thrown {
      return Failure(ExpressionParseFailed(i)), lineCounterIndex;
    }
    nextLineCounterIndex := lineCounterIndex + numberOfIntermediateNewLines;
    var newLinesCount := Count(chunk, '\n');
    if |metadatas| > 0 && i >= |metadatas| {
      return Failure(MissingMetadata(i)), nextLineCounterIndex;
    }
    var metadataWithLinesNumber := ChunkMetadata(BaseMetadata(metadatas, i), nextLineCounterIndex,
                                                 nextLineCounterIndex + newLinesCount,
                                                 startScope, indexChunk, endScope, indexEndChunk);
    var startScopeStr := ScopeString(startScope);
    var endScopeStr := ScopeString(endScope);
    r := Success(Document(PageContent(startScopeStr, chunk, endScopeStr), metadataWithLinesNumber));
    ChunkDocumentFrom(input, metadatas, i, k, nextLineCounterIndex, startScope, endScope, indexChunk, indexEndChunk);
    nextLineCounterIndex := nextLineCounterIndex + newLinesCount;
  }

  /** The `if (prevChunk)` block of the inner loop: where the chunk starts
      and ends in the text, the scopes at both ends, and the newlines the
      splitter dropped since the previous chunk; `thrown` when the scope
      lookup cannot parse the text. Without a previous chunk everything
      stays at its initial value. */
  method LocateChunk(input: TextInput, k: nat, prevChunk: Option<string>)
    returns (thrown: bool, indexChunk: int, indexEndChunk: int,
             startScope: seq<Key>, endScope: seq<Key>, numberOfIntermediateNewLines: nat)
    requires k < |input.chunks|
    requires prevChunk == if k == 0 then None else Some(input.chunks[k - 1])
    ensures thrown <==> HasPrev(input.chunks, k) && input.expression.None?
    ensures !thrown ==>
      indexChunk == ChunkStart(input, k) && indexEndChunk == ChunkEnd(input, k) &&
      startScope == StartScope(input, k) && endScope == EndScope(input, k) &&
      numberOfIntermediateNewLines == GapNewlines(input, k)
  {
    var text := input.text;
    var chunk := input.chunks[k];
    thrown, indexChunk, indexEndChunk, startScope, endScope, numberOfIntermediateNewLines := false, 0, 0, [], [], 0;
    if prevChunk.Some? && prevChunk.value != "" {
      assert HasPrev(input.chunks, k);
      indexChunk := IndexOf(text, chunk);
      indexEndChunk := indexChunk + |chunk|;
      var indexEndPrevChunk := IndexOf(text, prevChunk.value) + |prevChunk.value|;
      var removedNewlinesFromSplittingText := Slice(text, indexEndPrevChunk, indexChunk);
      if input.expression.None? {
        return true, indexChunk, indexEndChunk, startScope, endScope, numberOfIntermediateNewLines;
      }
      startScope := FindScope(input.expression.value, indexChunk, []);
      endScope := FindScope(input.expression.value, indexEndChunk, []);
      numberOfIntermediateNewLines := Count(removedNewlinesFromSplittingText, '\n');
    } else {
      assert !HasPrev(input.chunks, k);
    }
  }
}
