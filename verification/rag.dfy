/**
 * rag.py: retrieval of the most similar stored messages, with lazy backfill of
 * missing embeddings, and the prompt handed to the language model.
 * The encoder (`modelo_embedding.encode`) and cosine similarity are
 * uninterpreted function parameters.
 */
module Rag {
  import opened Wrappers
  import opened PyStrings
  import opened Store
  import opened ScoreSort

  /** The `[:3]` cut of rag.py:99. */
  const TopK: nat := 3

  function Min(a: nat, b: nat): nat { if a <= b then a else b }

  datatype RetrievalError =
    /** `doc["texto"]` raised KeyError while computing a missing embedding. */
    | MissingTexto(id: nat)
    /** `doc.get('texto')[:80]` raised TypeError on a selected document without `texto`. */
    | UnprintableTexto(id: nat)
    /** The encoder, `find`, `update_one` or `cosine_similarity` raised. */
    | CallFailed

  /** A document the scan can score: it has an embedding, or a `texto` to compute one from. */
  predicate Scannable(d: Doc) {
    d.embedding.Some? || d.texto.Some?
  }

  /** The embedding the scan uses for `d`: the stored one, else one computed from `texto`. */
  function EmbeddingFor(d: Doc, encode: Text -> Vec): Vec
    requires Scannable(d)
  {
    if d.embedding.Some? then d.embedding.value else encode(d.texto.value)
  }

  /** The similarity of `d` to the question embedding `q`. */
  function Score(d: Doc, q: Vec, encode: Text -> Vec, sim: (Vec, Vec) -> real): real
    requires Scannable(d)
  {
    sim(q, EmbeddingFor(d, encode))
  }

  /** Position of the first document the scan cannot score, or |docs| when there is none. */
  function ScanEnd(docs: seq<Doc>): (k: nat)
    ensures k <= |docs|
    ensures forall i :: 0 <= i < k ==> Scannable(docs[i])
    ensures k < |docs| ==> !Scannable(docs[k])
  {
    if docs == [] || !Scannable(docs[0]) then 0 else 1 + ScanEnd(docs[1..])
  }

  predicate AllScannable(docs: seq<Doc>) {
    forall i :: 0 <= i < |docs| ==> Scannable(docs[i])
  }

  /**
   * A foreign call raising is given by `raisesAt`: `Some(k)` says that one of
   * them raises once the scan has dealt with its first `k` documents (the
   * question's encoding or `find` for k = 0, otherwise the encoder or
   * `update_one` of document k, or the similarity of document k - 1). It takes
   * effect when the scan gets that far, that is, not after a KeyError.
   */
  predicate RaisesFirst(docs: seq<Doc>, raisesAt: Option<nat>) {
    raisesAt.Some? && raisesAt.value <= ScanEnd(docs)
  }

  /** How many documents the scan deals with, backfilling them, before it stops. */
  function ScanStop(docs: seq<Doc>, raisesAt: Option<nat>): (k: nat)
    ensures k <= ScanEnd(docs) <= |docs|
    ensures raisesAt.None? ==> k == ScanEnd(docs)
  {
    if RaisesFirst(docs, raisesAt) then raisesAt.value else ScanEnd(docs)
  }

  /** What backfill does to one document: a missing embedding is set to encode(texto). */
  function Backfill(d: Doc, encode: Text -> Vec): (r: Doc)
    ensures r.id == d.id && r.texto == d.texto
    ensures d.embedding.Some? ==> r == d
    ensures r.embedding.Some? <==> Scannable(d)
  {
    if d.embedding.None? && d.texto.Some? then d.(embedding := Some(encode(d.texto.value))) else d
  }

  /** The collection after the scan has backfilled its first `k` documents. */
  function BackfillPrefix(docs: seq<Doc>, k: nat, encode: Text -> Vec): (r: seq<Doc>)
    ensures |r| == |docs|
  {
    seq(|docs|, i requires 0 <= i < |docs| => if i < k then Backfill(docs[i], encode) else docs[i])
  }

  /** The `update_one` calls the scan issues over `docs`, in order. */
  function PendingWrites(docs: seq<Doc>, encode: Text -> Vec): (r: seq<Write>)
    ensures |r| <= |docs|
  {
    if docs == [] then []
    else
      var d := docs[|docs| - 1];
      PendingWrites(docs[..|docs| - 1], encode)
        + (if d.embedding.None? && d.texto.Some? then [SetEmbedding(d.id, encode(d.texto.value))] else [])
  }

  /** The `(doc, similarity)` list the scan builds, in store order. */
  function ScoreDocs(docs: seq<Doc>, q: Vec, encode: Text -> Vec, sim: (Vec, Vec) -> real): (r: seq<Scored<Doc>>)
    requires AllScannable(docs)
    ensures |r| == |docs|
  {
    seq(|docs|, i requires 0 <= i < |docs| => Scored(docs[i], Score(docs[i], q, encode, sim)))
  }

  /** The scored list after the stable descending sort. */
  function Ranking(docs: seq<Doc>, q: Vec, encode: Text -> Vec, sim: (Vec, Vec) -> real): (r: seq<Scored<Doc>>)
    requires AllScannable(docs)
    ensures |r| == |docs|
  {
    SortByScore(ScoreDocs(docs, q, encode, sim))
  }

  function Items(s: seq<Scored<Doc>>): (r: seq<Doc>)
    ensures |r| == |s|
  {
    seq(|s|, i requires 0 <= i < |s| => s[i].item)
  }

  /** Position of the first document without `texto`, or |docs|. */
  function FirstWithoutTexto(docs: seq<Doc>): (k: nat)
    ensures k <= |docs|
    ensures forall i :: 0 <= i < k ==> docs[i].texto.Some?
    ensures k < |docs| ==> docs[k].texto.None?
  {
    if docs == [] || docs[0].texto.None? then 0 else 1 + FirstWithoutTexto(docs[1..])
  }

  /** The first `TopK` documents of the ranking. */
  function Selected(docs: seq<Doc>, q: Vec, encode: Text -> Vec, sim: (Vec, Vec) -> real): (r: seq<Doc>)
    requires AllScannable(docs)
    ensures |r| == Min(TopK, |docs|)
  {
    Items(Ranking(docs, q, encode, sim)[..Min(TopK, |docs|)])
  }

  /** What `recuperar_informacoes_relevantes(pergunta)` returns or raises for a collection holding `docs`. */
  function Retrieval(docs: seq<Doc>, pergunta: Text, encode: Text -> Vec, sim: (Vec, Vec) -> real)
    : (r: Result<seq<Doc>, RetrievalError>)
    ensures ScanEnd(docs) < |docs| ==> r == Err(MissingTexto(docs[ScanEnd(docs)].id))
    ensures r.Ok? ==> |r.value| == Min(TopK, |docs|) && forall i :: 0 <= i < |r.value| ==> r.value[i].texto.Some?
  {
    var k := ScanEnd(docs);
    if k < |docs| then Err(MissingTexto(docs[k].id))
    else
      var top := Selected(docs, encode(pergunta), encode, sim);
      var j := FirstWithoutTexto(top);
      if j < |top| then Err(UnprintableTexto(top[j].id)) else Ok(top)
  }

  /** What `recuperar_informacoes_relevantes` returns or raises when a foreign call may raise. */
  function RetrievalWith(docs: seq<Doc>, pergunta: Text, encode: Text -> Vec, sim: (Vec, Vec) -> real, raisesAt: Option<nat>)
    : (r: Result<seq<Doc>, RetrievalError>)
    ensures r == Err(CallFailed) <==> RaisesFirst(docs, raisesAt)
    ensures raisesAt.None? ==> r == Retrieval(docs, pergunta, encode, sim)
  {
    if RaisesFirst(docs, raisesAt) then Err(CallFailed) else Retrieval(docs, pergunta, encode, sim)
  }

  lemma ScanEndIs(docs: seq<Doc>, i: nat)
    requires i <= |docs|
    requires forall j :: 0 <= j < i ==> Scannable(docs[j])
    requires i < |docs| ==> !Scannable(docs[i])
    ensures ScanEnd(docs) == i
  {
  }

  lemma FirstWithoutTextoIs(docs: seq<Doc>, i: nat)
    requires i <= |docs|
    requires forall j :: 0 <= j < i ==> docs[j].texto.Some?
    requires i < |docs| ==> docs[i].texto.None?
    ensures FirstWithoutTexto(docs) == i
  {
  }

  /** One scan step: the write log and the scored list grow as the specification says. */
  lemma ScanStep(docs: seq<Doc>, i: nat, q: Vec, encode: Text -> Vec, sim: (Vec, Vec) -> real)
    requires i < |docs| && AllScannable(docs[..i]) && Scannable(docs[i])
    ensures AllScannable(docs[..i + 1])
    ensures PendingWrites(docs[..i + 1], encode) == PendingWrites(docs[..i], encode)
      + (if docs[i].embedding.None? then [SetEmbedding(docs[i].id, encode(docs[i].texto.value))] else [])
    ensures ScoreDocs(docs[..i + 1], q, encode, sim)
      == ScoreDocs(docs[..i], q, encode, sim) + [Scored(docs[i], Score(docs[i], q, encode, sim))]
  {
    assert docs[..i + 1][..i] == docs[..i];
  }

  /** Backfilling one more document changes that document only, and only when it lacks an embedding. */
  lemma BackfillStep(docs: seq<Doc>, i: nat, encode: Text -> Vec)
    requires i < |docs|
    ensures docs[i].embedding.Some? ==> BackfillPrefix(docs, i + 1, encode) == BackfillPrefix(docs, i, encode)
    ensures docs[i].embedding.None? && docs[i].texto.Some? ==>
      BackfillPrefix(docs, i + 1, encode) == BackfillPrefix(docs, i, encode)[i := docs[i].(embedding := Some(encode(docs[i].texto.value)))]
  {
  }

  /**
   * The body of the loop of rag.py:80-94 for the document at position `i`:
   * reuse its embedding, or compute one from `texto` and `update_one` it.
   */
  method ScanDoc(c: Collection, documentos: seq<Doc>, i: nat, encode: Text -> Vec) returns (e: Vec)
    requires c.Valid() && i < |documentos| && Scannable(documentos[i])
    requires c.docs == BackfillPrefix(documentos, i, encode)
    modifies c
    ensures c.Valid() && c.nextId == old(c.nextId)
    ensures e == EmbeddingFor(documentos[i], encode)
    ensures c.docs == BackfillPrefix(documentos, i + 1, encode)
    ensures c.writes == old(c.writes)
      + (if documentos[i].embedding.None? then [SetEmbedding(documentos[i].id, encode(documentos[i].texto.value))] else [])
  {
    var doc := documentos[i];
    BackfillStep(documentos, i, encode);
    if doc.embedding.Some? {
      e := doc.embedding.value;
    } else {
      e := encode(doc.texto.value);
      SetEmbeddingAt(c.docs, i, e);
      c.UpdateEmbedding(doc.id, e);
    }
  }

  /** What the loop of rag.py:80-94 ends with: the scored list in store order, or the exception that stopped it. */
  function ScanOutcome(docs: seq<Doc>, q: Vec, encode: Text -> Vec, sim: (Vec, Vec) -> real, raisesAt: Option<nat>)
    : (r: Result<seq<Scored<Doc>>, RetrievalError>)
    ensures r.Ok? <==> !RaisesFirst(docs, raisesAt) && ScanEnd(docs) == |docs|
    ensures r.Ok? ==> |r.value| == |docs|
  {
    if RaisesFirst(docs, raisesAt) then Err(CallFailed)
    else if ScanEnd(docs) < |docs| then Err(MissingTexto(docs[ScanEnd(docs)].id))
    else Ok(ScoreDocs(docs, q, encode, sim))
  }

  /**
   * The iterations of the loop of rag.py:80-94 that complete: each reuses the
   * document's embedding or computes one from `texto` and writes it back, then
   * scores it. They stop at the end, at a document that cannot be scored, or
   * where a foreign call raises.
   */
  method ScanLoop(c: Collection, documentos: seq<Doc>, q: Vec, encode: Text -> Vec, sim: (Vec, Vec) -> real,
                  raisesAt: Option<nat>) returns (i: nat, scored: seq<Scored<Doc>>)
    requires c.Valid() && c.docs == documentos
    modifies c
    ensures c.Valid() && c.nextId == old(c.nextId)
    ensures i <= |documentos| && (raisesAt.Some? ==> raisesAt.value >= i)
    ensures forall j :: 0 <= j < i ==> Scannable(documentos[j])
    ensures i == |documentos| || !Scannable(documentos[i]) || raisesAt == Some(i)
    ensures AllScannable(documentos[..i]) && scored == ScoreDocs(documentos[..i], q, encode, sim)
    ensures c.docs == BackfillPrefix(documentos, i, encode)
    ensures c.writes == old(c.writes) + PendingWrites(documentos[..i], encode)
  {
    scored := [];
    i := 0;
    while i < |documentos| && Scannable(documentos[i]) && raisesAt != Some(i)
      invariant 0 <= i <= |documentos|
      invariant c.Valid() && c.nextId == old(c.nextId)
      invariant raisesAt.Some? ==> raisesAt.value >= i
      invariant AllScannable(documentos[..i])
      invariant c.docs == BackfillPrefix(documentos, i, encode)
      invariant c.writes == old(c.writes) + PendingWrites(documentos[..i], encode)
      invariant scored == ScoreDocs(documentos[..i], q, encode, sim)
    {
      ScanStep(documentos, i, q, encode, sim);
      var e := ScanDoc(c, documentos, i, encode);
      scored := scored + [Scored(documentos[i], sim(q, e))];
      i := i + 1;
    }
    assert forall j :: 0 <= j < i ==> documentos[..i][j] == documentos[j];
  }

  /**
   * The loop of rag.py:80-94 over what `find({})` returned, with the exception
   * that ends it early: KeyError on a document it cannot score, or a foreign
   * call raising. The documents dealt with before stay backfilled.
   */
  method ScanAndBackfill(c: Collection, q: Vec, encode: Text -> Vec, sim: (Vec, Vec) -> real, raisesAt: Option<nat>)
    returns (r: Result<seq<Scored<Doc>>, RetrievalError>)
    requires c.Valid()
    modifies c
    ensures c.Valid() && c.nextId == old(c.nextId)
    ensures r == ScanOutcome(old(c.docs), q, encode, sim, raisesAt)
    ensures c.docs == BackfillPrefix(old(c.docs), ScanStop(old(c.docs), raisesAt), encode)
    ensures c.writes == old(c.writes) + PendingWrites(old(c.docs)[..ScanStop(old(c.docs), raisesAt)], encode)
  {
    var documentos := c.FindAll();
    var i, scored := ScanLoop(c, documentos, q, encode, sim, raisesAt);
    if raisesAt == Some(i) {
      ScanEndAtLeast(documentos, i);
      return Err(CallFailed);
    }
    ScanEndIs(documentos, i);
    if i < |documentos| {
      r := Err(MissingTexto(documentos[i].id));
    } else {
      assert documentos[..i] == documentos;
      r := Ok(scored);
    }
  }

  /** The loop of rag.py:100-101, which fails on the first selected document without `texto`. */
  method FirstUnprintable(relevantes: seq<Doc>) returns (j: nat)
    ensures j <= |relevantes|
    ensures forall k :: 0 <= k < j ==> relevantes[k].texto.Some?
    ensures j < |relevantes| ==> relevantes[j].texto.None?
  {
    j := 0;
    while j < |relevantes|
      invariant 0 <= j <= |relevantes|
      invariant forall k :: 0 <= k < j ==> relevantes[k].texto.Some?
    {
      if relevantes[j].texto.None? {
        return;
      }
      j := j + 1;
    }
  }

  /**
   * `recuperar_informacoes_relevantes`: reads every document, reuses a stored
   * embedding or computes and writes back a missing one, scores each against
   * the question, sorts, and returns the first three.
   */
  method Retrieve(c: Collection, pergunta: Text, encode: Text -> Vec, sim: (Vec, Vec) -> real, raisesAt: Option<nat>)
    returns (r: Result<seq<Doc>, RetrievalError>)
    requires c.Valid()
    modifies c
    ensures c.Valid() && c.nextId == old(c.nextId)
    ensures r == RetrievalWith(old(c.docs), pergunta, encode, sim, raisesAt)
    ensures c.docs == BackfillPrefix(old(c.docs), ScanStop(old(c.docs), raisesAt), encode)
    ensures c.writes == old(c.writes) + PendingWrites(old(c.docs)[..ScanStop(old(c.docs), raisesAt)], encode)
  {
    var q := encode(pergunta);
    var scan := ScanAndBackfill(c, q, encode, sim, raisesAt);
    if scan.Err? {
      return Err(scan.error);
    }
    var scored := scan.value;
    var ranked := SortByScore(scored);
    SortSortedPermutation(scored);
    var relevantes := Items(ranked[..Min(TopK, |ranked|)]);
    assert relevantes == Selected(old(c.docs), q, encode, sim);
    var j := FirstUnprintable(relevantes);
    FirstWithoutTextoIs(relevantes, j);
    if j < |relevantes| {
      return Err(UnprintableTexto(relevantes[j].id));
    }
    r := Ok(relevantes);
  }

  /** The template of rag.py:53 around the context. */
  const PromptHeader: Text := "Com base nas informações abaixo, responda à pergunta de forma concisa e clara:\n\n"

  function PromptTrailer(pergunta: Text): Text {
    "\n\nPergunta: " + pergunta + "\nResposta:"
  }

  /** The prompt of `gerar_resposta_com_ia`: the texts joined by newlines inside the fixed template. */
  function Prompt(textos: seq<Text>, pergunta: Text): (r: Text)
    ensures PromptHeader <= r
    ensures |PromptTrailer(pergunta)| <= |r| && r[|r| - |PromptTrailer(pergunta)|..] == PromptTrailer(pergunta)
  {
    PromptHeader + Join(textos, "\n") + PromptTrailer(pergunta)
  }

  /** Reads the context section back out of a prompt built for `pergunta`. */
  function ContextSection(prompt: Text, pergunta: Text): Option<Text> {
    var h, t := |PromptHeader|, |PromptTrailer(pergunta)|;
    if h + t <= |prompt| && prompt[..h] == PromptHeader && prompt[|prompt| - t..] == PromptTrailer(pergunta)
    then Some(prompt[h..|prompt| - t])
    else None
  }

  // ---------------------------------------------------------------------------
  // Properties of retrieval

  /** An empty collection gives an empty result and no writes. */
  lemma RetrievalEmptyStore(pergunta: Text, encode: Text -> Vec, sim: (Vec, Vec) -> real)
    ensures Retrieval([], pergunta, encode, sim) == Ok([])
    ensures PendingWrites([], encode) == [] && BackfillPrefix([], 0, encode) == []
  {
    assert Selected([], encode(pergunta), encode, sim) == [];
  }

  /** Every entry of `s` is a document of `docs` paired with its own score. */
  predicate WellScored(s: seq<Scored<Doc>>, docs: seq<Doc>, q: Vec, encode: Text -> Vec, sim: (Vec, Vec) -> real) {
    forall e :: e in s ==> e.item in docs && Scannable(e.item) && e.score == Score(e.item, q, encode, sim)
  }

  /** The ranking holds each stored document once, with its score, in non-increasing score order. */
  lemma RankingEntries(docs: seq<Doc>, q: Vec, encode: Text -> Vec, sim: (Vec, Vec) -> real)
    requires AllScannable(docs)
    ensures SortedDesc(Ranking(docs, q, encode, sim))
    ensures multiset(Ranking(docs, q, encode, sim)) == multiset(ScoreDocs(docs, q, encode, sim))
    ensures WellScored(Ranking(docs, q, encode, sim), docs, q, encode, sim)
  {
    var s := ScoreDocs(docs, q, encode, sim);
    var r := Ranking(docs, q, encode, sim);
    SortSortedPermutation(s);
    forall e | e in r ensures e.item in docs && Scannable(e.item) && e.score == Score(e.item, q, encode, sim) {
      assert e in multiset(s);
      var p :| 0 <= p < |s| && s[p] == e;
    }
  }

  /** Ranked by non-increasing score. */
  predicate RankedByScore(top: seq<Doc>, q: Vec, encode: Text -> Vec, sim: (Vec, Vec) -> real)
    requires AllScannable(top)
  {
    forall i, j :: 0 <= i < j < |top| ==> Score(top[i], q, encode, sim) >= Score(top[j], q, encode, sim)
  }

  /** No document of `docs` left out of `top` scores above a document in `top`. */
  predicate NoneLeftOutHigher(docs: seq<Doc>, top: seq<Doc>, q: Vec, encode: Text -> Vec, sim: (Vec, Vec) -> real)
    requires AllScannable(docs) && AllScannable(top)
  {
    forall p, i :: 0 <= p < |docs| && docs[p] !in top && 0 <= i < |top| ==>
      Score(docs[p], q, encode, sim) <= Score(top[i], q, encode, sim)
  }

  /** Documents of `top` with equal scores appear in `top` in their order in `docs`. */
  predicate TiesInStoreOrder(docs: seq<Doc>, top: seq<Doc>, q: Vec, encode: Text -> Vec, sim: (Vec, Vec) -> real)
    requires AllScannable(top)
  {
    forall i, j :: 0 <= i < j < |top| && Score(top[i], q, encode, sim) == Score(top[j], q, encode, sim) ==>
      exists p, p' :: 0 <= p < p' < |docs| && docs[p] == top[i] && docs[p'] == top[j]
  }

  /** The selection has min(3, n) documents, each from the collection, each carrying its score in the ranking. */
  lemma SelectedFromStore(docs: seq<Doc>, q: Vec, encode: Text -> Vec, sim: (Vec, Vec) -> real)
    requires AllScannable(docs)
    ensures |Selected(docs, q, encode, sim)| == Min(TopK, |docs|)
    ensures forall i :: 0 <= i < |Selected(docs, q, encode, sim)| ==> Selected(docs, q, encode, sim)[i] in docs
    ensures AllScannable(Selected(docs, q, encode, sim))
    ensures forall i :: 0 <= i < |Selected(docs, q, encode, sim)| ==>
      Ranking(docs, q, encode, sim)[i] == Scored(Selected(docs, q, encode, sim)[i], Score(Selected(docs, q, encode, sim)[i], q, encode, sim))
  {
    var top := Selected(docs, q, encode, sim);
    var r := Ranking(docs, q, encode, sim);
    RankingEntries(docs, q, encode, sim);
    forall i | 0 <= i < |top| ensures top[i] in docs && Scannable(top[i]) && r[i] == Scored(top[i], Score(top[i], q, encode, sim)) {
      assert top[i] == r[i].item;
      assert r[i] in r;
    }
  }

  /** The selection is in non-increasing score order. */
  lemma SelectedRanked(docs: seq<Doc>, q: Vec, encode: Text -> Vec, sim: (Vec, Vec) -> real)
    requires AllScannable(docs)
    ensures AllScannable(Selected(docs, q, encode, sim))
    ensures RankedByScore(Selected(docs, q, encode, sim), q, encode, sim)
  {
    var top := Selected(docs, q, encode, sim);
    var r := Ranking(docs, q, encode, sim);
    SelectedFromStore(docs, q, encode, sim);
    SortSortedPermutation(ScoreDocs(docs, q, encode, sim));
    forall i, j | 0 <= i < j < |top| ensures Score(top[i], q, encode, sim) >= Score(top[j], q, encode, sim) {
      assert r[i].score >= r[j].score;
    }
  }

  /** The selection is the top of the ranking: nothing left out scores above anything selected. */
  lemma SelectedIsTop(docs: seq<Doc>, q: Vec, encode: Text -> Vec, sim: (Vec, Vec) -> real)
    requires AllScannable(docs)
    ensures AllScannable(Selected(docs, q, encode, sim))
    ensures NoneLeftOutHigher(docs, Selected(docs, q, encode, sim), q, encode, sim)
  {
    var top := Selected(docs, q, encode, sim);
    var s := ScoreDocs(docs, q, encode, sim);
    var r := Ranking(docs, q, encode, sim);
    var m := |top|;
    SelectedFromStore(docs, q, encode, sim);
    RankingEntries(docs, q, encode, sim);
    forall p, i | 0 <= p < |docs| && docs[p] !in top && 0 <= i < m
      ensures Score(docs[p], q, encode, sim) <= Score(top[i], q, encode, sim)
    {
      assert s[p] in multiset(r);
      var k :| 0 <= k < |r| && r[k] == s[p];
      assert r[i].score >= r[k].score;
    }
  }

  /** Documents of the selection with equal scores keep their store order. */
  lemma SelectedTiesInStoreOrder(docs: seq<Doc>, q: Vec, encode: Text -> Vec, sim: (Vec, Vec) -> real)
    requires AllScannable(docs)
    ensures AllScannable(Selected(docs, q, encode, sim))
    ensures TiesInStoreOrder(docs, Selected(docs, q, encode, sim), q, encode, sim)
  {
    var top := Selected(docs, q, encode, sim);
    var s := ScoreDocs(docs, q, encode, sim);
    var r := Ranking(docs, q, encode, sim);
    SelectedFromStore(docs, q, encode, sim);
    forall i, j | 0 <= i < j < |top| && Score(top[i], q, encode, sim) == Score(top[j], q, encode, sim)
      ensures exists p, p' :: 0 <= p < p' < |docs| && docs[p] == top[i] && docs[p'] == top[j]
    {
      SortKeepsTieOrder(s, i, j);
      var p, p' :| 0 <= p < p' < |s| && s[p] == r[i] && s[p'] == r[j];
      assert docs[p] == top[i] && docs[p'] == top[j];
    }
  }

  /**
   * A successful retrieval returns min(3, n) stored documents, each with a
   * `texto`, ranked by non-increasing similarity to the question, with no
   * left-out document more similar than a returned one, and ties in store order.
   */
  lemma RetrievalIsTopK(docs: seq<Doc>, pergunta: Text, encode: Text -> Vec, sim: (Vec, Vec) -> real)
    requires Retrieval(docs, pergunta, encode, sim).Ok?
    ensures AllScannable(docs) && AllScannable(Retrieval(docs, pergunta, encode, sim).value)
    ensures |Retrieval(docs, pergunta, encode, sim).value| == Min(TopK, |docs|)
    ensures forall d :: d in Retrieval(docs, pergunta, encode, sim).value ==> d in docs && d.texto.Some?
    ensures RankedByScore(Retrieval(docs, pergunta, encode, sim).value, encode(pergunta), encode, sim)
    ensures NoneLeftOutHigher(docs, Retrieval(docs, pergunta, encode, sim).value, encode(pergunta), encode, sim)
    ensures TiesInStoreOrder(docs, Retrieval(docs, pergunta, encode, sim).value, encode(pergunta), encode, sim)
  {
    var q := encode(pergunta);
    SelectedFromStore(docs, q, encode, sim);
    SelectedRanked(docs, q, encode, sim);
    SelectedIsTop(docs, q, encode, sim);
    SelectedTiesInStoreOrder(docs, q, encode, sim);
  }

  /** A document with neither an embedding nor a `texto` makes retrieval fail, at the first such document. */
  lemma RetrievalFailsOnMalformed(docs: seq<Doc>, pergunta: Text, encode: Text -> Vec, sim: (Vec, Vec) -> real, i: nat)
    requires i < |docs| && docs[i].embedding.None? && docs[i].texto.None?
    ensures ScanEnd(docs) <= i
    ensures Retrieval(docs, pergunta, encode, sim) == Err(MissingTexto(docs[ScanEnd(docs)].id))
  {
    ScanEndAtMost(docs, i);
  }

  lemma {:induction false} ScanEndAtLeast(docs: seq<Doc>, i: nat)
    requires i <= |docs| && forall j :: 0 <= j < i ==> Scannable(docs[j])
    ensures ScanEnd(docs) >= i
  {
    if i > 0 {
      assert forall j :: 0 <= j < i - 1 ==> docs[1..][j] == docs[j + 1];
      ScanEndAtLeast(docs[1..], i - 1);
    }
  }

  lemma {:induction false} ScanEndAtMost(docs: seq<Doc>, i: nat)
    requires i < |docs| && !Scannable(docs[i])
    ensures ScanEnd(docs) <= i
  {
    if i > 0 && Scannable(docs[0]) {
      assert docs[1..][i - 1] == docs[i];
      ScanEndAtMost(docs[1..], i - 1);
    }
  }

  /**
   * Backfill is exact: it changes only `embedding`, leaves documents that have
   * one alone, and sets encode(texto) on each scanned document that lacks one.
   */
  lemma BackfillOnlyEmbedding(docs: seq<Doc>, k: nat, encode: Text -> Vec)
    ensures forall i :: 0 <= i < |docs| ==>
      BackfillPrefix(docs, k, encode)[i].id == docs[i].id && BackfillPrefix(docs, k, encode)[i].texto == docs[i].texto
    ensures forall i :: 0 <= i < |docs| && (docs[i].embedding.Some? || i >= k) ==> BackfillPrefix(docs, k, encode)[i] == docs[i]
    ensures forall i :: 0 <= i < |docs| && i < k && docs[i].embedding.None? && docs[i].texto.Some? ==>
      BackfillPrefix(docs, k, encode)[i].embedding == Some(encode(docs[i].texto.value))
  {
  }

  /**
   * The writes of a scan: one per document lacking an embedding, carrying
   * encode(texto), none for a document that has one, and never two for the same id.
   */
  lemma {:induction false} PendingWritesExact(docs: seq<Doc>, encode: Text -> Vec)
    requires UniqueIds(docs)
    ensures forall w :: w in PendingWrites(docs, encode) ==>
      exists i :: (0 <= i < |docs| && docs[i].embedding.None? && docs[i].texto.Some?
        && w == SetEmbedding(docs[i].id, encode(docs[i].texto.value)))
    ensures forall i :: 0 <= i < |docs| && docs[i].embedding.None? && docs[i].texto.Some? ==>
      SetEmbedding(docs[i].id, encode(docs[i].texto.value)) in PendingWrites(docs, encode)
    ensures forall a, b :: 0 <= a < b < |PendingWrites(docs, encode)| ==>
      PendingWrites(docs, encode)[a].id != PendingWrites(docs, encode)[b].id
    ensures forall i, w :: 0 <= i < |docs| && docs[i].embedding.Some? && w in PendingWrites(docs, encode) ==> w.id != docs[i].id
  {
    if docs != [] {
      var init, d := docs[..|docs| - 1], docs[|docs| - 1];
      assert forall i :: 0 <= i < |init| ==> init[i] == docs[i];
      PendingWritesExact(init, encode);
      var w0 := PendingWrites(init, encode);
      var w := PendingWrites(docs, encode);
      forall x | x in w
        ensures exists i :: (0 <= i < |docs| && docs[i].embedding.None? && docs[i].texto.Some?
          && x == SetEmbedding(docs[i].id, encode(docs[i].texto.value)))
      {
        if x !in w0 {
          assert x == SetEmbedding(d.id, encode(d.texto.value));
        }
      }
      forall a, b | 0 <= a < b < |w| ensures w[a].id != w[b].id {
        if b >= |w0| {
          assert w[a] in w0;
          var i :| 0 <= i < |init| && init[i].embedding.None? && init[i].texto.Some?
            && w[a] == SetEmbedding(init[i].id, encode(init[i].texto.value));
          assert docs[i].id != docs[|docs| - 1].id;
        } else {
          assert w[a] == w0[a] && w[b] == w0[b];
        }
      }
      forall i, x | 0 <= i < |docs| && docs[i].embedding.Some? && x in w ensures x.id != docs[i].id {
        var j :| 0 <= j < |docs| && docs[j].embedding.None? && docs[j].texto.Some?
          && x == SetEmbedding(docs[j].id, encode(docs[j].texto.value));
        assert i != j;
      }
    }
  }

  lemma {:induction false} NoPendingWritesWhenEmbedded(docs: seq<Doc>, encode: Text -> Vec)
    requires AllEmbedded(docs)
    ensures PendingWrites(docs, encode) == []
  {
    if docs != [] {
      NoPendingWritesWhenEmbedded(docs[..|docs| - 1], encode);
    }
  }

  /** The writes of a shorter scan are the leading writes of a longer one. */
  lemma {:induction false} PendingWritesPrefix(docs: seq<Doc>, k: nat, m: nat, encode: Text -> Vec)
    requires k <= m <= |docs|
    ensures PendingWrites(docs[..k], encode) <= PendingWrites(docs[..m], encode)
  {
    if k < m {
      PendingWritesPrefix(docs, k, m - 1, encode);
      assert docs[..m][..m - 1] == docs[..m - 1];
    }
  }

  /**
   * A scan stopped by a raising call after `k` documents leaves in place what
   * it did: its writes are the leading writes of the scan that did not raise,
   * the first `k` documents are backfilled as that scan would leave them, and
   * the others are untouched.
   */
  lemma PartialScanKeepsEarlierWrites(docs: seq<Doc>, k: nat, encode: Text -> Vec)
    requires k <= ScanEnd(docs)
    ensures PendingWrites(docs[..k], encode) <= PendingWrites(docs[..ScanEnd(docs)], encode)
    ensures forall i :: 0 <= i < k ==> BackfillPrefix(docs, k, encode)[i] == BackfillPrefix(docs, ScanEnd(docs), encode)[i]
    ensures forall i :: k <= i < |docs| ==> BackfillPrefix(docs, k, encode)[i] == docs[i]
  {
    PendingWritesPrefix(docs, k, ScanEnd(docs), encode);
  }

  /** Scoring does not see backfill: a backfilled document scores as before. */
  lemma SelectedAfterBackfill(docs: seq<Doc>, q: Vec, encode: Text -> Vec, sim: (Vec, Vec) -> real)
    requires AllScannable(docs)
    ensures AllScannable(BackfillPrefix(docs, |docs|, encode))
    ensures Selected(BackfillPrefix(docs, |docs|, encode), q, encode, sim)
      == BackfillPrefix(Selected(docs, q, encode, sim), |Selected(docs, q, encode, sim)|, encode)
  {
    var after := BackfillPrefix(docs, |docs|, encode);
    var f := (d: Doc) => Backfill(d, encode);
    var s := ScoreDocs(docs, q, encode, sim);
    assert ScoreDocs(after, q, encode, sim) == MapItems(s, f);
    SortMapItems(s, f);
    SortSortedPermutation(s);
  }

  predicate AllEmbedded(docs: seq<Doc>) {
    forall i :: 0 <= i < |docs| ==> docs[i].embedding.Some?
  }

  /** After a full scan every document has an embedding, and backfilling again changes nothing. */
  lemma BackfillComplete(docs: seq<Doc>, encode: Text -> Vec)
    requires AllScannable(docs)
    ensures AllEmbedded(BackfillPrefix(docs, |docs|, encode))
    ensures BackfillPrefix(BackfillPrefix(docs, |docs|, encode), |docs|, encode) == BackfillPrefix(docs, |docs|, encode)
  {
    var after := BackfillPrefix(docs, |docs|, encode);
    forall i | 0 <= i < |docs| ensures after[i].embedding.Some? {
      assert after[i] == Backfill(docs[i], encode);
    }
    var again := BackfillPrefix(after, |docs|, encode);
    forall i | 0 <= i < |docs| ensures again[i] == after[i] {
      assert again[i] == Backfill(after[i], encode);
    }
  }

  /** After a scan that reached the end, the collection is a fixpoint of backfill and a second scan writes nothing. */
  lemma BackfillFixpoint(docs: seq<Doc>, encode: Text -> Vec)
    requires ScanEnd(docs) == |docs|
    ensures AllEmbedded(BackfillPrefix(docs, |docs|, encode))
    ensures ScanEnd(BackfillPrefix(docs, |docs|, encode)) == |docs|
    ensures PendingWrites(BackfillPrefix(docs, |docs|, encode), encode) == []
    ensures BackfillPrefix(BackfillPrefix(docs, |docs|, encode), |docs|, encode) == BackfillPrefix(docs, |docs|, encode)
  {
    var after := BackfillPrefix(docs, |docs|, encode);
    BackfillComplete(docs, encode);
    ScanEndIs(after, |after|);
    NoPendingWritesWhenEmbedded(after, encode);
  }

  /** Retrieval on the backfilled collection returns the same documents, now with their embeddings, or fails the same way. */
  lemma RetrievalAfterBackfill(docs: seq<Doc>, pergunta: Text, encode: Text -> Vec, sim: (Vec, Vec) -> real)
    requires ScanEnd(docs) == |docs|
    ensures Retrieval(BackfillPrefix(docs, |docs|, encode), pergunta, encode, sim)
      == match Retrieval(docs, pergunta, encode, sim)
         case Ok(top) => Ok(BackfillPrefix(top, |top|, encode))
         case Err(e) => Err(e)
  {
    var after := BackfillPrefix(docs, |docs|, encode);
    BackfillComplete(docs, encode);
    ScanEndIs(after, |after|);
    var q := encode(pergunta);
    SelectedAfterBackfill(docs, q, encode, sim);
    var top := Selected(docs, q, encode, sim);
    BackfillKeepsTextos(top, encode);
  }

  /** Backfill keeps ids and `texto` values, so the first document without `texto` stays where it was. */
  lemma BackfillKeepsTextos(top: seq<Doc>, encode: Text -> Vec)
    ensures FirstWithoutTexto(BackfillPrefix(top, |top|, encode)) == FirstWithoutTexto(top)
    ensures forall k :: 0 <= k < |top| ==> BackfillPrefix(top, |top|, encode)[k].id == top[k].id
  {
    var top2 := BackfillPrefix(top, |top|, encode);
    forall k | 0 <= k < |top| ensures top2[k].texto == top[k].texto && top2[k].id == top[k].id {
      assert top2[k] == Backfill(top[k], encode);
    }
    FirstWithoutTextoIs(top2, FirstWithoutTexto(top));
  }

  /**
   * Idempotence: after a scan that reached the end, every document has an
   * embedding, so a second retrieval on the unchanged collection writes
   * nothing, leaves it as it is, and returns the same documents as the
   * first, now carrying the embeddings that were written back.
   */
  lemma RetrieveTwice(docs: seq<Doc>, pergunta: Text, encode: Text -> Vec, sim: (Vec, Vec) -> real)
    requires ScanEnd(docs) == |docs|
    ensures AllEmbedded(BackfillPrefix(docs, |docs|, encode))
    ensures ScanEnd(BackfillPrefix(docs, |docs|, encode)) == |docs|
    ensures PendingWrites(BackfillPrefix(docs, |docs|, encode), encode) == []
    ensures BackfillPrefix(BackfillPrefix(docs, |docs|, encode), |docs|, encode) == BackfillPrefix(docs, |docs|, encode)
    ensures Retrieval(BackfillPrefix(docs, |docs|, encode), pergunta, encode, sim)
      == match Retrieval(docs, pergunta, encode, sim)
         case Ok(top) => Ok(BackfillPrefix(top, |top|, encode))
         case Err(e) => Err(e)
  {
    BackfillFixpoint(docs, encode);
    RetrievalAfterBackfill(docs, pergunta, encode, sim);
  }

  /** The prompt carries the joined context between the fixed header and the question trailer. */
  lemma PromptContextRoundTrip(textos: seq<Text>, pergunta: Text)
    ensures ContextSection(Prompt(textos, pergunta), pergunta) == Some(Join(textos, "\n"))
  {
    var p := Prompt(textos, pergunta);
    var h, t := |PromptHeader|, |PromptTrailer(pergunta)|;
    assert p[..h] == PromptHeader;
    assert p[|p| - t..] == PromptTrailer(pergunta);
    assert p[h..|p| - t] == Join(textos, "\n");
  }

  /** When no text has a newline, the context section splits back into the texts, in order. */
  lemma PromptRecoversTexts(textos: seq<Text>, pergunta: Text)
    requires |textos| >= 1 && forall k :: 0 <= k < |textos| ==> '\n' !in textos[k]
    ensures Split(ContextSection(Prompt(textos, pergunta), pergunta).value, '\n') == textos
  {
    PromptContextRoundTrip(textos, pergunta);
    SplitJoin(textos, '\n');
  }
}
