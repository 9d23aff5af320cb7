/**
 * main.py: the HTTP handlers that touch the stores. Registration and login
 * work on the user collection, `/mensagens` adds one message to the message
 * collection, and `/pergunta` and `/ia/responder` answer a question by
 * retrieval, generation and logging. bcrypt, the JWT encoder, the language
 * model and the interaction log are collaborators given as parameters.
 */
module Api {
  import opened Wrappers
  import opened PyStrings
  import opened Store
  import opened Rag

  /** An `HTTPException(status_code, detail)` as the client receives it. */
  datatype HttpError = HttpError(status: nat, detail: Text)

  /** What may propagate out of a handler's `try` body. */
  datatype Raised =
    /** An `HTTPException` raised by the handler itself. */
    | Http(e: HttpError)
    /** Any other exception: the encoder, the database or the model failing. */
    | Failure

  const BadRequest: nat := 400
  const Unauthorized: nat := 401
  const InternalError: nat := 500

  // ---------------------------------------------------------------------------
  // POST /mensagens

  const EmptyTextDetail: Text := "Texto vazio não permitido"
  const SaveFailedDetail: Text := "Erro ao salvar a mensagem"
  const AddedMessage: Text := "Mensagem adicionada com sucesso"

  /**
   * The `try` body of `adicionar_mensagem`: the stripped text is rejected with
   * 400 when empty; otherwise encoding and insertion either succeed or raise
   * (`fault`).
   */
  function AddTry(texto: Text, fault: bool): (r: Result<Text, Raised>)
    ensures r == Err(Http(HttpError(BadRequest, EmptyTextDetail))) <==> Strip(texto) == []
    ensures r == Err(Failure) <==> Strip(texto) != [] && fault
    ensures r.Ok? <==> Strip(texto) != [] && !fault
  {
    if Strip(texto) == [] then Err(Http(HttpError(BadRequest, EmptyTextDetail)))
    else if fault then Err(Failure)
    else Ok(AddedMessage)
  }

  /** The reply as main.py:90-92 produces it: `except Exception` turns everything raised, the 400 included, into 500. */
  function AddReplyAsWritten(texto: Text, fault: bool): (r: Result<Text, HttpError>)
    ensures r.Err? ==> r.error == HttpError(InternalError, SaveFailedDetail)
    ensures r.Ok? <==> Strip(texto) != [] && !fault
  {
    match AddTry(texto, fault)
    case Ok(m) => Ok(m)
    case Err(_) => Err(HttpError(InternalError, SaveFailedDetail))
  }

  /** The reply with the handler's own `HTTPException` passed through, as the 400 of main.py:77 intends. */
  function AddReply(texto: Text, fault: bool): (r: Result<Text, HttpError>)
    ensures r.Err? ==> r.error.status in {BadRequest, InternalError}
  {
    match AddTry(texto, fault)
    case Ok(m) => Ok(m)
    case Err(Http(e)) => Err(e)
    case Err(Failure) => Err(HttpError(InternalError, SaveFailedDetail))
  }

  /** As written, a blank text can never be told apart from a database failure: both give 500. */
  lemma BlankMessageGets500AsWritten()
    ensures Strip("   ") == []
    ensures AddReplyAsWritten("   ", false) == Err(HttpError(InternalError, SaveFailedDetail))
    ensures AddReply("   ", false) == Err(HttpError(BadRequest, EmptyTextDetail))
  {
    StripEmptyIffAllSpace("   ");
  }

  /** With the 400 passed through, the client sees 400 exactly when the text is blank, and 500 exactly on a failure. */
  lemma AddReplyDistinguishesBlank(texto: Text, fault: bool)
    ensures AddReply(texto, fault) == Err(HttpError(BadRequest, EmptyTextDetail)) <==> Strip(texto) == []
    ensures AddReply(texto, fault) == Err(HttpError(InternalError, SaveFailedDetail)) <==> Strip(texto) != [] && fault
    ensures AddReply(texto, fault) == Ok(AddedMessage) <==> Strip(texto) != [] && !fault
  {
  }

  /** The document `/mensagens` stores for `texto`, if any: the stripped text and its embedding. */
  function AddedDoc(texto: Text, fault: bool, id: nat, encode: Text -> Vec): (r: Option<Doc>)
    ensures r.Some? <==> AddReply(texto, fault).Ok?
    ensures r.Some? ==> r.value.texto == Some(Strip(texto)) && r.value.embedding == Some(encode(Strip(texto)))
  {
    if Strip(texto) == [] || fault then None
    else Some(Doc(id, Some(Strip(texto)), Some(encode(Strip(texto)))))
  }

  /**
   * `adicionar_mensagem` as written: strip, reject blank, encode the stripped
   * text, insert one document; everything raised comes back as 500.
   */
  method AddMessageAsWritten(c: Collection, texto: Text, encode: Text -> Vec, fault: bool)
    returns (r: Result<Text, HttpError>)
    requires c.Valid()
    modifies c
    ensures c.Valid() && c.writes == old(c.writes)
    ensures r == AddReplyAsWritten(texto, fault)
    ensures AddedDoc(texto, fault, old(c.nextId), encode).None? ==> c.docs == old(c.docs) && c.nextId == old(c.nextId)
    ensures AddedDoc(texto, fault, old(c.nextId), encode).Some? ==>
      c.docs == old(c.docs) + [AddedDoc(texto, fault, old(c.nextId), encode).value] && c.nextId == old(c.nextId) + 1
  {
    var outcome := AddBody(c, texto, encode, fault);
    match outcome
    case Ok(m) => r := Ok(m);
    case Err(_) => r := Err(HttpError(InternalError, SaveFailedDetail));
  }

  /** `adicionar_mensagem` with the handler's own 400 passed through to the client. */
  method AddMessage(c: Collection, texto: Text, encode: Text -> Vec, fault: bool)
    returns (r: Result<Text, HttpError>)
    requires c.Valid()
    modifies c
    ensures c.Valid() && c.writes == old(c.writes)
    ensures r == AddReply(texto, fault)
    ensures AddedDoc(texto, fault, old(c.nextId), encode).None? ==> c.docs == old(c.docs) && c.nextId == old(c.nextId)
    ensures AddedDoc(texto, fault, old(c.nextId), encode).Some? ==>
      c.docs == old(c.docs) + [AddedDoc(texto, fault, old(c.nextId), encode).value] && c.nextId == old(c.nextId) + 1
  {
    var outcome := AddBody(c, texto, encode, fault);
    match outcome
    case Ok(m) => r := Ok(m);
    case Err(Http(e)) => r := Err(e);
    case Err(Failure) => r := Err(HttpError(InternalError, SaveFailedDetail));
  }

  /** The `try` body of main.py:75-88, with its effect on the collection. */
  method AddBody(c: Collection, texto: Text, encode: Text -> Vec, fault: bool)
    returns (r: Result<Text, Raised>)
    requires c.Valid()
    modifies c
    ensures c.Valid() && c.writes == old(c.writes)
    ensures r == AddTry(texto, fault)
    ensures AddedDoc(texto, fault, old(c.nextId), encode).None? ==> c.docs == old(c.docs) && c.nextId == old(c.nextId)
    ensures AddedDoc(texto, fault, old(c.nextId), encode).Some? ==>
      c.docs == old(c.docs) + [AddedDoc(texto, fault, old(c.nextId), encode).value] && c.nextId == old(c.nextId) + 1
  {
    var stripped := Strip(texto);
    if stripped == [] {
      return Err(Http(HttpError(BadRequest, EmptyTextDetail)));
    }
    if fault {
      // the encoder or insert_one raised before anything was stored
      return Err(Failure);
    }
    var embedding := encode(stripped);
    var _ := c.InsertOne(stripped, embedding);
    r := Ok(AddedMessage);
  }

  /**
   * The document `/mensagens` builds carries its embedding: appended to
   * documents that all have one, the result still does, and a scan over it
   * has nothing to write back.
   */
  lemma AddedDocNeedsNoBackfill(docs: seq<Doc>, texto: Text, fault: bool, id: nat, encode: Text -> Vec)
    requires AllEmbedded(docs) && AddedDoc(texto, fault, id, encode).Some?
    ensures AllEmbedded(docs + [AddedDoc(texto, fault, id, encode).value])
    ensures PendingWrites(docs + [AddedDoc(texto, fault, id, encode).value], encode) == []
  {
    NoPendingWritesWhenEmbedded(docs + [AddedDoc(texto, fault, id, encode).value], encode);
  }

  // ---------------------------------------------------------------------------
  // POST /register and POST /login

  /** The request body of both routes, and the response of `/register`. */
  datatype UsuarioLogin = UsuarioLogin(email: Text, senha: Text)

  /** The response of `/login`. */
  datatype Token = Token(access_token: Text, token_type: Text)

  const DuplicateEmailDetail: Text := "Email já cadastrado"
  const BadCredentialsDetail: Text := "Credenciais inválidas"
  const Bearer: Text := "bearer"

  predicate Registered(users: seq<User>, email: Text) {
    exists i :: 0 <= i < |users| && users[i].email == email
  }

  /**
   * `register_user` on a user collection holding `users`: the reply and the
   * collection afterwards. `hashpw(senha, salt)` is `bcrypt.hashpw` with the
   * salt `bcrypt.gensalt()` drew.
   */
  function Registration(users: seq<User>, usuario: UsuarioLogin, hashpw: (Text, Text) -> Text, salt: Text)
    : (r: (Result<UsuarioLogin, HttpError>, seq<User>))
    ensures r.0.Err? <==> Registered(users, usuario.email)
    ensures r.0.Err? ==> r.0.error == HttpError(BadRequest, DuplicateEmailDetail) && r.1 == users
    ensures r.0.Ok? ==> r.0.value == usuario && |r.1| == |users| + 1 && r.1[..|users|] == users
    ensures r.0.Ok? ==> r.1[|users|].email == usuario.email && r.1[|users|].senha == hashpw(usuario.senha, salt)
  {
    if FindUser(users, usuario.email).Some? then (Err(HttpError(BadRequest, DuplicateEmailDetail)), users)
    else (Ok(usuario), users + [User(usuario.email, hashpw(usuario.senha, salt))])
  }

  /** `register_user`: look the email up, refuse it when taken, else store the email with the password hash. */
  method RegisterUser(users: UserCollection, usuario: UsuarioLogin, hashpw: (Text, Text) -> Text, salt: Text)
    returns (r: Result<UsuarioLogin, HttpError>)
    modifies users
    ensures (r, users.users) == Registration(old(users.users), usuario, hashpw, salt)
  {
    var existing := users.FindOne(usuario.email);
    if existing.Some? {
      return Err(HttpError(BadRequest, DuplicateEmailDetail));
    }
    var senhaHash := hashpw(usuario.senha, salt);
    users.InsertOne(usuario.email, senhaHash);
    r := Ok(usuario);
  }

  /** No two users share an email. */
  predicate DistinctEmails(users: seq<User>) {
    forall i, j :: 0 <= i < j < |users| ==> users[i].email != users[j].email
  }

  /** Registration is the only way in, so emails stay distinct. */
  lemma RegistrationKeepsEmailsDistinct(users: seq<User>, usuario: UsuarioLogin, hashpw: (Text, Text) -> Text, salt: Text)
    requires DistinctEmails(users)
    ensures DistinctEmails(Registration(users, usuario, hashpw, salt).1)
  {
    var after := Registration(users, usuario, hashpw, salt).1;
    if after != users {
      forall i, j | 0 <= i < j < |after| ensures after[i].email != after[j].email {
        if j == |users| {
          assert after[i] == users[i];
        } else {
          assert after[i] == users[i] && after[j] == users[j];
        }
      }
    }
  }

  /** Registering the same email twice: the second attempt fails with 400 and changes nothing. */
  lemma RegisterTwiceFails(users: seq<User>, u1: UsuarioLogin, u2: UsuarioLogin, hashpw: (Text, Text) -> Text, s1: Text, s2: Text)
    requires u1.email == u2.email
    requires Registration(users, u1, hashpw, s1).0.Ok?
    ensures Registration(Registration(users, u1, hashpw, s1).1, u2, hashpw, s2)
      == (Err(HttpError(BadRequest, DuplicateEmailDetail)), Registration(users, u1, hashpw, s1).1)
  {
    var after := Registration(users, u1, hashpw, s1).1;
    assert after[|users|].email == u2.email;
  }

  /**
   * `login`: 401 with one and the same detail when the email is unknown or the
   * password does not check against the stored hash; otherwise a bearer
   * token for the email. `checkpw` is `bcrypt.checkpw`, `issue` is
   * `create_access_token` for the subject.
   */
  function Login(users: seq<User>, usuario: UsuarioLogin, checkpw: (Text, Text) -> bool, issue: Text -> Text)
    : (r: Result<Token, HttpError>)
    ensures r.Err? ==> r.error == HttpError(Unauthorized, BadCredentialsDetail)
    ensures r.Ok? ==> r.value == Token(issue(usuario.email), Bearer)
    ensures !Registered(users, usuario.email) ==> r.Err?
  {
    match FindUser(users, usuario.email)
    case None => Err(HttpError(Unauthorized, BadCredentialsDetail))
    case Some(dbUser) =>
      if !checkpw(usuario.senha, dbUser.senha) then Err(HttpError(Unauthorized, BadCredentialsDetail))
      else Ok(Token(issue(usuario.email), Bearer))
  }

  /** The `login` handler on the user collection; it reads and never writes. */
  method LoginUser(users: UserCollection, usuario: UsuarioLogin, checkpw: (Text, Text) -> bool, issue: Text -> Text)
    returns (r: Result<Token, HttpError>)
    ensures r == Login(users.users, usuario, checkpw, issue)
  {
    var dbUser := users.FindOne(usuario.email);
    if dbUser.None? {
      return Err(HttpError(Unauthorized, BadCredentialsDetail));
    }
    var senhaValida := checkpw(usuario.senha, dbUser.value.senha);
    if !senhaValida {
      return Err(HttpError(Unauthorized, BadCredentialsDetail));
    }
    r := Ok(Token(issue(usuario.email), Bearer));
  }

  /**
   * A token is issued exactly when the email is registered and the password
   * checks against the hash stored for its first user; the client cannot
   * tell an unknown email from a wrong password.
   */
  lemma LoginSucceedsIff(users: seq<User>, usuario: UsuarioLogin, checkpw: (Text, Text) -> bool, issue: Text -> Text)
    ensures Login(users, usuario, checkpw, issue).Ok? <==>
      exists i :: (0 <= i < |users| && users[i].email == usuario.email && checkpw(usuario.senha, users[i].senha)
        && forall j :: 0 <= j < i ==> users[j].email != usuario.email)
  {
    var f := FindUser(users, usuario.email);
    if f.Some? {
      var i :| 0 <= i < |users| && users[i] == f.value && forall j :: 0 <= j < i ==> users[j].email != usuario.email;
    }
  }

  /**
   * Register then log in: when bcrypt checks a password against its own hash,
   * a successful registration lets the same email and password log in.
   */
  lemma RegisterThenLogin(users: seq<User>, usuario: UsuarioLogin, hashpw: (Text, Text) -> Text, salt: Text,
                          checkpw: (Text, Text) -> bool, issue: Text -> Text)
    requires checkpw(usuario.senha, hashpw(usuario.senha, salt))
    requires Registration(users, usuario, hashpw, salt).0.Ok?
    ensures Login(Registration(users, usuario, hashpw, salt).1, usuario, checkpw, issue) == Ok(Token(issue(usuario.email), Bearer))
  {
    var after := Registration(users, usuario, hashpw, salt).1;
    assert FindUser(users, usuario.email).None?;
    assert after == users + [User(usuario.email, hashpw(usuario.senha, salt))];
    assert FindUser(after, usuario.email) == Some(after[|users|]);
  }

  // ---------------------------------------------------------------------------
  // POST /pergunta and POST /ia/responder

  /** One `registrar_interacao(pergunta, resposta, textos)` call. */
  datatype Interaction = Interaction(pergunta: Text, resposta: Text, textos: seq<Text>)

  /** The interaction log `registrar_interacao` appends to. */
  class InteractionLog {
    var entries: seq<Interaction>

    constructor ()
      ensures entries == []
    {
      entries := [];
    }

    method Record(i: Interaction)
      modifies this
      ensures entries == old(entries) + [i]
    {
      entries := entries + [i];
    }
  }

  /** Where answering a question stopped. */
  datatype AnswerFailure =
    | RetrievalFailed(e: RetrievalError)
    /** The language model raised. */
    | GenerationFailed
    /** `registrar_interacao` raised. */
    | LoggingFailed

  /** `[doc.get("texto", "") for doc in contexto]`. */
  function ContextTexts(contexto: seq<Doc>): (r: seq<Text>)
    ensures |r| == |contexto|
    ensures forall i :: 0 <= i < |contexto| && contexto[i].texto.Some? ==> r[i] == contexto[i].texto.value
  {
    seq(|contexto|, i requires 0 <= i < |contexto| => contexto[i].texto.GetOr(""))
  }

  /**
   * Retrieval, then generation on the prompt built from exactly the
   * retrieved texts, giving the interaction to log. The texts the prompt
   * reads with `doc["texto"]` are the logged ones: retrieval only returns
   * documents that have a `texto`.
   */
  function Answering(docs: seq<Doc>, pergunta: Text, encode: Text -> Vec, sim: (Vec, Vec) -> real,
                     raisesAt: Option<nat>, generate: Text -> Option<Text>): (r: Result<Interaction, AnswerFailure>)
    ensures r.Ok? ==> r.value.pergunta == pergunta
  {
    match RetrievalWith(docs, pergunta, encode, sim, raisesAt)
    case Err(e) => Err(RetrievalFailed(e))
    case Ok(contexto) =>
      var textos := ContextTexts(contexto);
      match generate(Prompt(textos, pergunta))
      case None => Err(GenerationFailed)
      case Some(resposta) => Ok(Interaction(pergunta, resposta, textos))
  }

  /**
   * The body shared by `responder_pergunta` and `responder_ia`: retrieve, generate
   * from the retrieved context, log, in that order. A failing step stops the
   * later ones; the backfill writes retrieval made stay.
   */
  method Answer(c: Collection, log: InteractionLog, pergunta: Text, encode: Text -> Vec, sim: (Vec, Vec) -> real,
                raisesAt: Option<nat>, generate: Text -> Option<Text>, logFails: bool)
    returns (r: Result<Text, AnswerFailure>)
    requires c.Valid()
    modifies c, log
    ensures c.Valid() && c.nextId == old(c.nextId)
    ensures c.docs == BackfillPrefix(old(c.docs), ScanStop(old(c.docs), raisesAt), encode)
    ensures c.writes == old(c.writes) + PendingWrites(old(c.docs)[..ScanStop(old(c.docs), raisesAt)], encode)
    ensures Answering(old(c.docs), pergunta, encode, sim, raisesAt, generate).Err? ==>
      r == Err(Answering(old(c.docs), pergunta, encode, sim, raisesAt, generate).error) && log.entries == old(log.entries)
    ensures Answering(old(c.docs), pergunta, encode, sim, raisesAt, generate).Ok? && logFails ==>
      r == Err(LoggingFailed) && log.entries == old(log.entries)
    ensures Answering(old(c.docs), pergunta, encode, sim, raisesAt, generate).Ok? && !logFails ==>
      r == Ok(Answering(old(c.docs), pergunta, encode, sim, raisesAt, generate).value.resposta)
      && log.entries == old(log.entries) + [Answering(old(c.docs), pergunta, encode, sim, raisesAt, generate).value]
  {
    var contexto := Retrieve(c, pergunta, encode, sim, raisesAt);
    if contexto.Err? {
      return Err(RetrievalFailed(contexto.error));
    }
    var textos := ContextTexts(contexto.value);
    var resposta := generate(Prompt(textos, pergunta));
    if resposta.None? {
      return Err(GenerationFailed);
    }
    if logFails {
      return Err(LoggingFailed);
    }
    log.Record(Interaction(pergunta, resposta.value, textos));
    r := Ok(resposta.value);
  }

  /**
   * An answer is generated from exactly the retrieved documents: the
   * logged texts are the `texto` values of the top-3 retrieval result, in
   * ranking order, and the model was given the prompt over those texts.
   */
  lemma AnswerUsesRetrievedContext(docs: seq<Doc>, pergunta: Text, encode: Text -> Vec, sim: (Vec, Vec) -> real,
                                   raisesAt: Option<nat>, generate: Text -> Option<Text>)
    requires Answering(docs, pergunta, encode, sim, raisesAt, generate).Ok?
    ensures !RaisesFirst(docs, raisesAt) && Retrieval(docs, pergunta, encode, sim).Ok?
    ensures |Answering(docs, pergunta, encode, sim, raisesAt, generate).value.textos| == Min(TopK, |docs|)
    ensures forall i :: 0 <= i < |Retrieval(docs, pergunta, encode, sim).value| ==>
      Some(Answering(docs, pergunta, encode, sim, raisesAt, generate).value.textos[i]) == Retrieval(docs, pergunta, encode, sim).value[i].texto
    ensures generate(Prompt(Answering(docs, pergunta, encode, sim, raisesAt, generate).value.textos, pergunta))
      == Some(Answering(docs, pergunta, encode, sim, raisesAt, generate).value.resposta)
  {
    RetrievalIsTopK(docs, pergunta, encode, sim);
    var top := Retrieval(docs, pergunta, encode, sim).value;
    forall i | 0 <= i < |top| ensures Some(ContextTexts(top)[i]) == top[i].texto {
      assert top[i] in top;
    }
  }

  /** A failed retrieval stops the pipeline before the model is asked. */
  lemma AnswerNeedsRetrieval(docs: seq<Doc>, pergunta: Text, encode: Text -> Vec, sim: (Vec, Vec) -> real,
                             raisesAt: Option<nat>, generate: Text -> Option<Text>)
    requires RetrievalWith(docs, pergunta, encode, sim, raisesAt).Err?
    ensures Answering(docs, pergunta, encode, sim, raisesAt, generate)
      == Err(RetrievalFailed(RetrievalWith(docs, pergunta, encode, sim, raisesAt).error))
  {
  }

  /** A foreign call raising inside retrieval stops the pipeline before the model is asked, and nothing is logged. */
  lemma RaiseInRetrievalStopsAnswer(docs: seq<Doc>, pergunta: Text, encode: Text -> Vec, sim: (Vec, Vec) -> real,
                                    raisesAt: Option<nat>, generate: Text -> Option<Text>)
    requires RaisesFirst(docs, raisesAt)
    ensures Answering(docs, pergunta, encode, sim, raisesAt, generate) == Err(RetrievalFailed(CallFailed))
  {
  }

  const InternalErrorDetail: Text := "Erro interno no servidor"
  const ProcessingErrorText: Text := "Erro ao processar a pergunta"

  /** A JSON reply with one key. */
  datatype JsonReply = JsonReply(status: nat, key: Text, value: Text)

  /** What `/pergunta` sends for the outcome of answering: the answer, or 500. */
  function PerguntaReply(a: Result<Text, AnswerFailure>): (r: Result<Text, HttpError>)
    ensures r.Ok? <==> a.Ok?
    ensures r.Ok? ==> r.value == a.value
    ensures r.Err? ==> r.error == HttpError(InternalError, InternalErrorDetail)
  {
    match a
    case Ok(resposta) => Ok(resposta)
    case Err(_) => Err(HttpError(InternalError, InternalErrorDetail))
  }

  /** What `/ia/responder` sends: 200 with `resposta`, or 500 with `erro`. */
  function IaReply(a: Result<Text, AnswerFailure>): (r: JsonReply)
    ensures r.status == 200 <==> a.Ok?
    ensures a.Ok? ==> r == JsonReply(200, "resposta", a.value)
    ensures a.Err? ==> r == JsonReply(InternalError, "erro", ProcessingErrorText)
  {
    match a
    case Ok(resposta) => JsonReply(200, "resposta", resposta)
    case Err(_) => JsonReply(InternalError, "erro", ProcessingErrorText)
  }

  /** `responder_pergunta`: any exception becomes 500 "Erro interno no servidor". */
  method ResponderPergunta(c: Collection, log: InteractionLog, pergunta: Text, encode: Text -> Vec, sim: (Vec, Vec) -> real,
                           raisesAt: Option<nat>, generate: Text -> Option<Text>, logFails: bool)
    returns (r: Result<Text, HttpError>)
    requires c.Valid()
    modifies c, log
    ensures c.Valid() && c.nextId == old(c.nextId)
    ensures c.docs == BackfillPrefix(old(c.docs), ScanStop(old(c.docs), raisesAt), encode)
    ensures r.Ok? <==> Answering(old(c.docs), pergunta, encode, sim, raisesAt, generate).Ok? && !logFails
    ensures r.Ok? ==> (r.value == Answering(old(c.docs), pergunta, encode, sim, raisesAt, generate).value.resposta
      && log.entries == old(log.entries) + [Answering(old(c.docs), pergunta, encode, sim, raisesAt, generate).value])
    ensures r.Err? ==> r.error == HttpError(InternalError, InternalErrorDetail) && log.entries == old(log.entries)
  {
    var a := Answer(c, log, pergunta, encode, sim, raisesAt, generate, logFails);
    r := PerguntaReply(a);
  }

  /** `responder_ia`: the same pipeline, answering with a JSON body and status. */
  method ResponderIa(c: Collection, log: InteractionLog, pergunta: Text, encode: Text -> Vec, sim: (Vec, Vec) -> real,
                     raisesAt: Option<nat>, generate: Text -> Option<Text>, logFails: bool)
    returns (r: JsonReply)
    requires c.Valid()
    modifies c, log
    ensures c.Valid() && c.nextId == old(c.nextId)
    ensures c.docs == BackfillPrefix(old(c.docs), ScanStop(old(c.docs), raisesAt), encode)
    ensures r.status == 200 <==> Answering(old(c.docs), pergunta, encode, sim, raisesAt, generate).Ok? && !logFails
    ensures r.status == 200 ==> (r == JsonReply(200, "resposta", Answering(old(c.docs), pergunta, encode, sim, raisesAt, generate).value.resposta)
      && log.entries == old(log.entries) + [Answering(old(c.docs), pergunta, encode, sim, raisesAt, generate).value])
    ensures r.status != 200 ==> r == JsonReply(InternalError, "erro", ProcessingErrorText) && log.entries == old(log.entries)
  {
    var a := Answer(c, log, pergunta, encode, sim, raisesAt, generate, logFails);
    r := IaReply(a);
  }
}
