/**
 * seed.py: builds one message per `<erro>` element of `mensagens.xml` and
 * inserts the messages not yet present into the message collection, each with
 * its embedding. XML parsing is not modelled: the parsed tree is the input.
 */
module Seed {
  import opened Wrappers
  import opened PyStrings
  import opened Store

  /**
   * An `<erro>` element as ElementTree exposes it: the `codigo` attribute
   * (`erro.get` gives None when it is absent), the text of its `<descricao>`
   * child (None when the child is missing or has no text: either way
   * `.text.strip()` raises), and the text of each `solucao/passo` element.
   */
  datatype Erro = Erro(codigo: Option<Text>, descricao: Option<Text>, passos: seq<Option<Text>>)

  /** The outcome of `ET.parse(path).getroot().findall("erro")`. */
  datatype XmlFile = Unreadable | Parsed(erros: seq<Erro>)

  /** An element whose message can be built without raising. */
  predicate Formattable(e: Erro) {
    e.descricao.Some? && forall k :: 0 <= k < |e.passos| ==> e.passos[k].Some?
  }

  /** How the f-string renders `codigo`: the missing attribute prints as "None". */
  function CodigoText(c: Option<Text>): Text {
    match c
    case Some(t) => t
    case None => "None"
  }

  /** The text of each step with surrounding whitespace removed, in document order. */
  function StrippedPassos(e: Erro): (r: seq<Text>)
    requires Formattable(e)
    ensures |r| == |e.passos|
  {
    StripAll(e.passos)
  }

  function StripAll(passos: seq<Option<Text>>): (r: seq<Text>)
    requires forall k :: 0 <= k < |passos| ==> passos[k].Some?
    ensures |r| == |passos|
    ensures forall k :: 0 <= k < |passos| ==> r[k] == Strip(passos[k].value)
  {
    if passos == [] then [] else [Strip(passos[0].value)] + StripAll(passos[1..])
  }

  const MessagePrefix: Text := "Rejeição "
  const SolutionsLine: Text := "\nSoluções:\n"

  /** The f-string of seed.py:39. */
  function Message(codigo: Text, descricao: Text, solucao: Text): (m: Text)
    ensures |m| > |MessagePrefix|
  {
    MessagePrefix + codigo + ": " + descricao + SolutionsLine + solucao
  }

  /** The message of seed.py:36-39: stripped description, stripped steps joined by newlines. */
  function FormatMessage(e: Erro): (m: Text)
    requires Formattable(e)
    ensures MessagePrefix + CodigoText(e.codigo) + ": " <= m
  {
    Message(CodigoText(e.codigo), Strip(e.descricao.value), Join(StrippedPassos(e), "\n"))
  }

  /** Position of the first element whose message cannot be built, or |erros|. */
  function FirstMalformed(erros: seq<Erro>): (k: nat)
    ensures k <= |erros|
    ensures forall i :: 0 <= i < k ==> Formattable(erros[i])
    ensures k < |erros| ==> !Formattable(erros[k])
  {
    if erros == [] || !Formattable(erros[0]) then 0 else 1 + FirstMalformed(erros[1..])
  }

  /** The messages of elements that all format, in order. */
  function Messages(erros: seq<Erro>): (r: seq<Text>)
    requires forall i :: 0 <= i < |erros| ==> Formattable(erros[i])
    ensures |r| == |erros|
  {
    if erros == [] then []
    else Messages(erros[..|erros| - 1]) + [FormatMessage(erros[|erros| - 1])]
  }

  /** What `carregar_mensagens_xml` returns: the messages built before the first failure. */
  function MessagesOf(f: XmlFile): (r: seq<Text>)
    ensures f.Unreadable? ==> r == []
    ensures f.Parsed? ==> |r| == FirstMalformed(f.erros) <= |f.erros|
  {
    match f
    case Unreadable => []
    case Parsed(erros) => Messages(erros[..FirstMalformed(erros)])
  }

  /** `carregar_mensagens_xml`: one message per element, in document order, until an element fails. */
  method LoadMessages(f: XmlFile) returns (mensagens: seq<Text>)
    ensures mensagens == MessagesOf(f)
  {
    mensagens := [];
    if f.Unreadable? {
      return;
    }
    var erros := f.erros;
    var i := 0;
    while i < |erros| && Formattable(erros[i])
      invariant 0 <= i <= |erros|
      invariant forall j :: 0 <= j < i ==> Formattable(erros[j])
      invariant mensagens == Messages(erros[..i])
    {
      var erro := erros[i];
      var mensagem := FormatMessage(erro);
      MessagesSnoc(erros, i);
      if mensagem != [] {
        mensagens := mensagens + [mensagem];
      }
      i := i + 1;
    }
    FirstMalformedIs(erros, i);
  }

  lemma MessagesSnoc(erros: seq<Erro>, i: nat)
    requires i < |erros|
    requires forall j :: 0 <= j <= i ==> Formattable(erros[j])
    ensures Messages(erros[..i + 1]) == Messages(erros[..i]) + [FormatMessage(erros[i])]
  {
    assert erros[..i + 1][..i] == erros[..i];
  }

  /** One message per element, in document order: message `i` is the one built from element `i`. */
  lemma {:induction false} MessagesAt(erros: seq<Erro>, i: nat)
    requires forall j :: 0 <= j < |erros| ==> Formattable(erros[j])
    requires i < |erros|
    ensures Messages(erros)[i] == FormatMessage(erros[i])
  {
    var init := erros[..|erros| - 1];
    assert Messages(erros) == Messages(init) + [FormatMessage(erros[|erros| - 1])];
    if i < |init| {
      assert forall j :: 0 <= j < |init| ==> init[j] == erros[j];
      MessagesAt(init, i);
    }
  }

  lemma FirstMalformedIs(erros: seq<Erro>, k: nat)
    requires k <= |erros|
    requires forall i :: 0 <= i < k ==> Formattable(erros[i])
    requires k < |erros| ==> !Formattable(erros[k])
    ensures FirstMalformed(erros) == k
  {
  }

  /** The messages of a prefix are the prefix of the messages. */
  lemma {:induction false} MessagesPrefix(erros: seq<Erro>, k: nat)
    requires forall i :: 0 <= i < |erros| ==> Formattable(erros[i])
    requires k <= |erros|
    ensures Messages(erros[..k]) == Messages(erros)[..k]
  {
    if k < |erros| {
      var init := erros[..|erros| - 1];
      assert init[..k] == erros[..k];
      MessagesPrefix(init, k);
    } else {
      assert erros[..k] == erros;
    }
  }

  lemma {:induction false} FirstMalformedAtLeast(erros: seq<Erro>, k: nat)
    requires k <= |erros| && forall i :: 0 <= i < k ==> Formattable(erros[i])
    ensures FirstMalformed(erros) >= k
  {
    if k > 0 {
      assert forall i :: 0 <= i < k - 1 ==> erros[1..][i] == erros[i + 1];
      FirstMalformedAtLeast(erros[1..], k - 1);
    }
  }

  /** When every element of `erros` formats, its messages lead those of any longer file. */
  lemma MessagesOfPrefix(erros: seq<Erro>, more: seq<Erro>)
    requires FirstMalformed(erros) == |erros|
    ensures |erros| <= |MessagesOf(Parsed(erros + more))|
    ensures MessagesOf(Parsed(erros)) == MessagesOf(Parsed(erros + more))[..|erros|]
  {
    var all := erros + more;
    assert forall i :: 0 <= i < |erros| ==> all[i] == erros[i];
    FirstMalformedAtLeast(all, |erros|);
    var read := all[..FirstMalformed(all)];
    MessagesPrefix(read, |erros|);
    assert read[..|erros|] == erros[..FirstMalformed(erros)];
  }

  /** The elements read from `erros + more` are those read from `erros` when an element of `erros` fails. */
  lemma ReadStopsAtFailure(erros: seq<Erro>, more: seq<Erro>)
    requires FirstMalformed(erros) < |erros|
    ensures (erros + more)[..FirstMalformed(erros + more)] == erros[..FirstMalformed(erros)]
  {
    var all := erros + more;
    var k := FirstMalformed(erros);
    assert forall i :: 0 <= i <= k ==> all[i] == erros[i];
    FirstMalformedIs(all, k);
  }

  /** An element that fails ends the reading, whatever follows it. */
  lemma MessagesOfStopAtFailure(erros: seq<Erro>, more: seq<Erro>)
    requires FirstMalformed(erros) < |erros|
    ensures MessagesOf(Parsed(erros + more)) == MessagesOf(Parsed(erros))
  {
    ReadStopsAtFailure(erros, more);
  }

  /**
   * Reading is all or up to the failure: an element that fails keeps every
   * message built before it and drops everything after it, whatever follows;
   * when no element fails, the messages are the leading ones of any longer file.
   */
  lemma MessagesBeforeFailureKept(erros: seq<Erro>, more: seq<Erro>)
    ensures |MessagesOf(Parsed(erros))| <= |erros|
    ensures FirstMalformed(erros) == |erros| ==>
      MessagesOf(Parsed(erros)) == MessagesOf(Parsed(erros + more))[..|erros|]
    ensures FirstMalformed(erros) < |erros| ==> MessagesOf(Parsed(erros + more)) == MessagesOf(Parsed(erros))
  {
    if FirstMalformed(erros) == |erros| {
      MessagesOfPrefix(erros, more);
    } else {
      MessagesOfStopAtFailure(erros, more);
    }
  }

  /** Splits `<codigo>: <rest>` at the first colon, which must be followed by a space. */
  function SplitCode(rest: Text): Option<(Text, Text)>
  {
    var c := FirstIndexOf(rest, ':');
    if c + 2 > |rest| || rest[c..c + 2] != ": " then None
    else Some((rest[..c], rest[c + 2..]))
  }

  /** Splits `<descricao>\nSoluções:\n<solucao>` at the first newline. */
  function SplitDescricao(rest: Text): Option<(Text, Text)>
  {
    var d := FirstIndexOf(rest, '\n');
    if |rest| < d + |SolutionsLine| || rest[d..d + |SolutionsLine|] != SolutionsLine then None
    else Some((rest[..d], rest[d + |SolutionsLine|..]))
  }

  /** Reads the three parts back out of a message: the code, the description and the steps. */
  function ParseMessage(m: Text): Option<(Text, Text, seq<Text>)>
  {
    if |m| < |MessagePrefix| || m[..|MessagePrefix|] != MessagePrefix then None
    else match SplitCode(m[|MessagePrefix|..])
      case None => None
      case Some((codigo, rest)) =>
        match SplitDescricao(rest)
        case None => None
        case Some((descricao, solucao)) => Some((codigo, descricao, Split(solucao, '\n')))
  }

  lemma SplitCodeRoundTrip(codigo: Text, tail: Text)
    requires ':' !in codigo
    ensures SplitCode(codigo + ": " + tail) == Some((codigo, tail))
  {
    var rest := codigo + ": " + tail;
    assert rest == codigo + [':'] + (" " + tail);
    FirstIndexOfAfter(codigo, ':', " " + tail);
    assert rest[|codigo|..|codigo| + 2] == ": ";
    assert rest[..|codigo|] == codigo;
    assert rest[|codigo| + 2..] == tail;
  }

  lemma SplitDescricaoRoundTrip(descricao: Text, solucao: Text)
    requires '\n' !in descricao
    ensures SplitDescricao(descricao + SolutionsLine + solucao) == Some((descricao, solucao))
  {
    var rest := descricao + SolutionsLine + solucao;
    var after := SolutionsLine[1..] + solucao;
    assert rest == descricao + ['\n'] + after;
    FirstIndexOfAfter(descricao, '\n', after);
    var d := |descricao|;
    assert rest[d..d + |SolutionsLine|] == SolutionsLine;
    assert rest[..d] == descricao;
    assert rest[d + |SolutionsLine|..] == solucao;
  }

  /** A message splits back into its code, its description and its solution text. */
  lemma ParseMessageParts(codigo: Text, descricao: Text, solucao: Text)
    requires ':' !in codigo && '\n' !in descricao
    ensures ParseMessage(Message(codigo, descricao, solucao)) == Some((codigo, descricao, Split(solucao, '\n')))
  {
    var tail := descricao + SolutionsLine + solucao;
    var m := Message(codigo, descricao, solucao);
    assert m == MessagePrefix + (codigo + ": " + tail);
    assert m[|MessagePrefix|..] == codigo + ": " + tail;
    SplitCodeRoundTrip(codigo, tail);
    SplitDescricaoRoundTrip(descricao, solucao);
  }

  /**
   * The message format is unambiguous for one-line parts: when the code has no
   * colon, and the description and the steps no newline, parsing the message
   * gives back the code, the description and the steps.
   */
  lemma ParseMessageRoundTrip(codigo: Text, descricao: Text, passos: seq<Text>)
    requires |passos| >= 1
    requires ':' !in codigo && '\n' !in descricao
    requires forall k :: 0 <= k < |passos| ==> '\n' !in passos[k]
    ensures ParseMessage(Message(codigo, descricao, Join(passos, "\n"))) == Some((codigo, descricao, passos))
  {
    ParseMessageParts(codigo, descricao, Join(passos, "\n"));
    SplitJoin(passos, '\n');
  }

  /** The round trip for a formatted `<erro>` element. */
  lemma ParseFormatMessage(e: Erro)
    requires Formattable(e) && |e.passos| >= 1
    requires ':' !in CodigoText(e.codigo)
    requires '\n' !in Strip(e.descricao.value)
    requires forall k :: 0 <= k < |e.passos| ==> '\n' !in StrippedPassos(e)[k]
    ensures ParseMessage(FormatMessage(e)) == Some((CodigoText(e.codigo), Strip(e.descricao.value), StrippedPassos(e)))
  {
    ParseMessageRoundTrip(CodigoText(e.codigo), Strip(e.descricao.value), StrippedPassos(e));
  }

  // ---------------------------------------------------------------------------
  // inserir_mensagens

  /**
   * The texts `inserir_mensagens` inserts, in order, into a collection whose
   * texts are `present`: a text is inserted unless it is already there (from
   * before or from earlier in this run), or its step raised (`faults`, by position).
   */
  function Plan(present: set<Text>, msgs: seq<Text>, faults: set<nat>): (r: seq<Text>)
    ensures |r| <= |msgs|
  {
    if msgs == [] then []
    else
      var i := |msgs| - 1;
      var before := Plan(present, msgs[..i], faults);
      if i in faults || msgs[i] in present || msgs[i] in before then before else before + [msgs[i]]
  }

  lemma NewDocsSnoc(nextId: nat, texts: seq<Text>, t: Text, encode: Text -> Vec)
    ensures NewDocs(nextId, texts + [t], encode) == NewDocs(nextId, texts, encode) + [Doc(nextId + |texts|, Some(t), Some(encode(t)))]
  {
  }

  /**
   * One step of the insert loop against the plan: the collection after the
   * first `i` texts is `docs + NewDocs(...)` of the plan so far; the text at
   * position `i` extends the plan exactly when it did not raise and is not in
   * that collection, and then by one document carrying it and its embedding.
   */
  lemma PlanStep(docs: seq<Doc>, nextId: nat, msgs: seq<Text>, i: nat, faults: set<nat>, encode: Text -> Vec)
    requires i < |msgs|
    ensures i in faults || msgs[i] in Textos(docs + NewDocs(nextId, Plan(Textos(docs), msgs[..i], faults), encode))
      ==> Plan(Textos(docs), msgs[..i + 1], faults) == Plan(Textos(docs), msgs[..i], faults)
    ensures i !in faults && msgs[i] !in Textos(docs + NewDocs(nextId, Plan(Textos(docs), msgs[..i], faults), encode))
      ==> (Plan(Textos(docs), msgs[..i + 1], faults) == Plan(Textos(docs), msgs[..i], faults) + [msgs[i]]
        && docs + NewDocs(nextId, Plan(Textos(docs), msgs[..i + 1], faults), encode)
          == docs + NewDocs(nextId, Plan(Textos(docs), msgs[..i], faults), encode)
            + [Doc(nextId + |Plan(Textos(docs), msgs[..i], faults)|, Some(msgs[i]), Some(encode(msgs[i])))])
  {
    var before := Plan(Textos(docs), msgs[..i], faults);
    assert msgs[..i + 1][..i] == msgs[..i];
    TextosAppend(docs, nextId, before, encode);
    NewDocsSnoc(nextId, before, msgs[i], encode);
  }

  /**
   * The `try` block of seed.py:48-60 for one text: skip it when a document with
   * that `texto` exists, else insert it with its embedding; when one of these
   * calls raises (`fault`) the text is reported and nothing is stored.
   */
  method InsertIfAbsent(c: Collection, texto: Text, encode: Text -> Vec, fault: bool) returns (inserted: bool)
    requires c.Valid()
    modifies c
    ensures c.Valid() && c.writes == old(c.writes)
    ensures inserted <==> !fault && texto !in Textos(old(c.docs))
    ensures inserted ==> c.docs == old(c.docs) + [Doc(old(c.nextId), Some(texto), Some(encode(texto)))] && c.nextId == old(c.nextId) + 1
    ensures !inserted ==> c.docs == old(c.docs) && c.nextId == old(c.nextId)
  {
    var existe := c.HasTexto(texto);
    if existe {
      return false;
    }
    if fault {
      // find_one, the encoder or insert_one raised: nothing was stored
      return false;
    }
    var embedding := encode(texto);
    var _ := c.InsertOne(texto, embedding);
    inserted := true;
  }

  /** One iteration of `inserir_mensagens`: the collection goes from the plan of the first `i` texts to that of the first `i + 1`. */
  method InsertStep(c: Collection, ghost docs: seq<Doc>, ghost nextId: nat, mensagens: seq<Text>, i: nat, encode: Text -> Vec, faults: set<nat>)
    requires c.Valid() && i < |mensagens|
    requires c.docs == docs + NewDocs(nextId, Plan(Textos(docs), mensagens[..i], faults), encode)
    requires c.nextId == nextId + |Plan(Textos(docs), mensagens[..i], faults)|
    modifies c
    ensures c.Valid() && c.writes == old(c.writes)
    ensures c.docs == docs + NewDocs(nextId, Plan(Textos(docs), mensagens[..i + 1], faults), encode)
    ensures c.nextId == nextId + |Plan(Textos(docs), mensagens[..i + 1], faults)|
  {
    PlanStep(docs, nextId, mensagens, i, faults, encode);
    var _ := InsertIfAbsent(c, mensagens[i], encode, i in faults);
  }

  /**
   * `inserir_mensagens`: for each text, skip it when a document with that
   * `texto` exists, else insert it with its embedding; an exception on one
   * text is reported and the loop goes on with the next.
   */
  method InsertMessages(c: Collection, mensagens: seq<Text>, encode: Text -> Vec, faults: set<nat>)
    requires c.Valid()
    modifies c
    ensures c.Valid()
    ensures c.docs == old(c.docs) + NewDocs(old(c.nextId), Plan(Textos(old(c.docs)), mensagens, faults), encode)
    ensures c.nextId == old(c.nextId) + |Plan(Textos(old(c.docs)), mensagens, faults)|
    ensures c.writes == old(c.writes)
  {
    ghost var present := Textos(c.docs);
    for i := 0 to |mensagens|
      invariant c.Valid() && c.writes == old(c.writes)
      invariant c.docs == old(c.docs) + NewDocs(old(c.nextId), Plan(present, mensagens[..i], faults), encode)
      invariant c.nextId == old(c.nextId) + |Plan(present, mensagens[..i], faults)|
    {
      InsertStep(c, old(c.docs), old(c.nextId), mensagens, i, encode, faults);
    }
    assert mensagens[..|mensagens|] == mensagens;
  }

  /** Every planned text comes from the input, was not present, and is planned once. */
  lemma {:induction false} PlanFreshAndDistinct(present: set<Text>, msgs: seq<Text>, faults: set<nat>)
    ensures forall t :: t in Plan(present, msgs, faults) ==> t in msgs && t !in present
    ensures forall a, b :: 0 <= a < b < |Plan(present, msgs, faults)| ==> Plan(present, msgs, faults)[a] != Plan(present, msgs, faults)[b]
  {
    if msgs != [] {
      var i := |msgs| - 1;
      PlanFreshAndDistinct(present, msgs[..i], faults);
      assert forall t :: t in msgs[..i] ==> t in msgs;
    }
  }

  /**
   * A failure on one text does not stop the others: every text at a position
   * that did not raise ends up in the collection, inserted now or already there.
   */
  lemma {:induction false} PlanComplete(present: set<Text>, msgs: seq<Text>, faults: set<nat>)
    ensures forall j :: 0 <= j < |msgs| && j !in faults ==> msgs[j] in present || msgs[j] in Plan(present, msgs, faults)
  {
    if msgs != [] {
      var i := |msgs| - 1;
      PlanComplete(present, msgs[..i], faults);
      forall j | 0 <= j < i && j !in faults ensures msgs[j] in present || msgs[j] in Plan(present, msgs, faults) {
        assert msgs[..i][j] == msgs[j];
      }
    }
  }

  /** No two documents share a `texto`. */
  predicate DistinctTextos(docs: seq<Doc>) {
    forall i, j :: 0 <= i < j < |docs| && docs[i].texto.Some? ==> docs[i].texto != docs[j].texto
  }

  /** Seeding a collection without duplicate texts leaves it without duplicate texts. */
  lemma SeedKeepsTextosDistinct(docs: seq<Doc>, nextId: nat, msgs: seq<Text>, encode: Text -> Vec, faults: set<nat>)
    requires DistinctTextos(docs)
    ensures DistinctTextos(docs + NewDocs(nextId, Plan(Textos(docs), msgs, faults), encode))
  {
    var plan := Plan(Textos(docs), msgs, faults);
    var all := docs + NewDocs(nextId, plan, encode);
    PlanFreshAndDistinct(Textos(docs), msgs, faults);
    forall i, j | 0 <= i < j < |all| && all[i].texto.Some? ensures all[i].texto != all[j].texto {
      if j >= |docs| {
        assert all[j].texto == Some(plan[j - |docs|]);
        if i < |docs| {
          assert all[i] in docs;
          assert all[i].texto.value in Textos(docs);
        }
      }
    }
  }

  /** Seeding twice: when no step of the first run raised, a second run with the same texts inserts nothing. */
  lemma SeedTwiceInsertsNothing(present: set<Text>, msgs: seq<Text>, faults: set<nat>)
    ensures Plan(present + (set t | t in Plan(present, msgs, {})), msgs, faults) == []
  {
    var first := Plan(present, msgs, {});
    PlanComplete(present, msgs, {});
    PlanNothingNew(present + (set t | t in first), msgs, faults);
  }

  lemma {:induction false} PlanNothingNew(present: set<Text>, msgs: seq<Text>, faults: set<nat>)
    requires forall j :: 0 <= j < |msgs| ==> msgs[j] in present
    ensures Plan(present, msgs, faults) == []
  {
    if msgs != [] {
      PlanNothingNew(present, msgs[..|msgs| - 1], faults);
    }
  }

  /** The outcome of running seed.py as a script, once the collection is reached. */
  datatype SeedOutcome =
    /** `mensagens` was empty: "Nenhuma mensagem para inserir", exit code 0. */
    | NothingToInsert
    /** The messages were handed to `inserir_mensagens`. */
    | Inserted

  /**
   * The `__main__` block: load `mensagens.xml` when it exists, stop without
   * touching the collection when there is nothing to insert, else insert.
   */
  method SeedMain(c: Collection, xmlExists: bool, f: XmlFile, encode: Text -> Vec, faults: set<nat>)
    returns (o: SeedOutcome)
    requires c.Valid()
    modifies c
    ensures c.Valid() && c.writes == old(c.writes)
    ensures o == NothingToInsert <==> !xmlExists || MessagesOf(f) == []
    ensures o == NothingToInsert ==> c.docs == old(c.docs) && c.nextId == old(c.nextId)
    ensures o == Inserted ==> c.docs == old(c.docs) + NewDocs(old(c.nextId), Plan(Textos(old(c.docs)), MessagesOf(f), faults), encode)
  {
    var mensagens: seq<Text> := [];
    if xmlExists {
      var mensagensXml := LoadMessages(f);
      mensagens := mensagens + mensagensXml;
      assert mensagens == MessagesOf(f);
    }
    if mensagens == [] {
      return NothingToInsert;
    }
    InsertMessages(c, mensagens, encode, faults);
    o := Inserted;
  }
}
