# TEKBOT back end: knowledge store, retrieval and handlers

TEKBOT is a chatbot that answers questions about rejection codes. Its Python back end keeps a MongoDB collection of
messages. Each message is a document with a `texto` and, possibly, an `embedding`.

- `seed.py` fills the collection from `mensagens.xml`. Each `<erro>` element becomes one message of the form
  `Rejeição {codigo}: {descricao}\nSoluções:\n{passos}`. A text already stored is skipped.
- `POST /mensagens` in `main.py` adds a single stripped message with its embedding.
- `recuperar_informacoes_relevantes` in `rag.py` reads every document. It reuses a stored embedding, or computes a
  missing one from `texto` and writes it back with `update_one`. It scores each document against the question, sorts
  by score with Python's stable sort in descending order, and returns the first three.
- `gerar_resposta_com_ia` places the retrieved texts in a fixed prompt template.
- `POST /pergunta` and `POST /ia/responder` run retrieval, then generation, then logging of the interaction.
- `POST /register` and `POST /login` keep a user collection of emails and bcrypt hashes.

The project models this core in Dafny.

- `wrappers.dfy` (module `Wrappers`): `Option` and `Result`.
- `pystrings.dfy` (module `PyStrings`): Python's `str.strip()`, `sep.join` and `str.split` for one character.
- `store.dfy` (module `Store`): the two collections as classes updated in place. `Collection` holds the message
  documents, a fresh-id counter and a ghost log of every `update_one`. `UserCollection` holds the users.
- `scoresort.dfy` (module `ScoreSort`): `list.sort(key=score, reverse=True)` as a stable insertion sort.
- `rag.dfy` (module `Rag`): retrieval, backfill, top-3 selection and the prompt.
- `seed.dfy` (module `Seed`): message formatting, the de-duplicating insert loop and the script's `__main__` block.
- `api.dfy` (module `Api`): the handlers of `main.py`.

The encoder (`modelo_embedding.encode`), cosine similarity, bcrypt, the JWT encoder and the language model are
function parameters with no interpretation. A database call or an encoder call that raises is a parameter too.
It is the boolean `fault` for `/mensagens`, `logFails` for logging, and the set `faults` of positions whose step raised
for the seeding loop. For retrieval it is `raisesAt`, the number of documents the scan has dealt with when the
encoder, `find`, `update_one` or the similarity raises.

## Model

| member | source | states |
|---|---|---|
| PyStrings.TrimLeftSuffix | back-end/main.py:75 | The left half of `str.strip()` keeps a suffix of the text and drops only white space. What remains does not start with white space. |
| PyStrings.TrimRightPrefix | back-end/main.py:75 | The right half of `str.strip()` keeps a prefix of the text and drops only white space. What remains does not end with white space. |
| PyStrings.Strip | back-end/main.py:75 | Defines `str.strip()` as the right trim of the left trim. It never lengthens the text. What it keeps is stated by `StripIsTrimmedSlice`, `StripIdempotent` and `StripEmptyIffAllSpace`. |
| PyStrings.StripIsTrimmedSlice | back-end/main.py:75 | `str.strip()` returns a contiguous slice of its input. Everything cut on either side is white space, and the slice neither starts nor ends with white space. |
| PyStrings.StripIdempotent | back-end/main.py:75 | Stripping a stripped text changes nothing. |
| PyStrings.StripEmptyIffAllSpace | back-end/main.py:75-76 | The stripped text is empty exactly when the input is all white space, which is when `not texto` holds after the strip. |
| PyStrings.Join | back-end/rag.py:52 | Defines `sep.join(xs)`: the parts in order with the separator between neighbours. The last part ends the result. `SplitJoin` proves the join can be undone. |
| PyStrings.SplitJoin | back-end/rag.py:52 | Joining with `"\n"` loses nothing when no part contains a newline: splitting the joined text at each newline gives back the parts, in order. `Split` cuts at the last occurrence of the character, which the helper `LastIndexOf` finds. |
| PyStrings.SplitLast | back-end/rag.py:52 | Text after the last separator is the last piece of a split, and the text before it splits as it does alone. |
| Store.SetEmbeddingOf | back-end/rag.py:88-91 | An `update_one` with `$set` of `embedding` keeps the number of documents, each `_id` and each `texto`. |
| Store.SetEmbeddingAt | back-end/rag.py:88-91 | When ids are unique, updating by the `_id` of position `i` sets that document's embedding and leaves every other document as it was. |
| Store.TextosAppend | back-end/seed.py:53-57 | After inserting documents for some texts, the stored texts are the earlier ones together with the inserted ones. |
| Store.Collection.FindAll | back-end/rag.py:75 | `find({})` returns every document, in store order. |
| Store.Collection.HasTexto | back-end/seed.py:49 | `find_one({"texto": t})` finds a document exactly when some document has that `texto`. |
| Store.Collection.InsertOne | back-end/main.py:83-86 | `insert_one` appends exactly one document with a fresh `_id`, the given `texto` and the given embedding. The invariant holds afterwards: ids are unique and below the counter. |
| Store.Collection.UpdateEmbedding | back-end/rag.py:88-91 | The documents after the call are those that `SetEmbeddingOf` gives. Exactly one write is logged. The invariant is kept. |
| Store.FindUser | back-end/main.py:29 | The result is None exactly when no user has the email. Otherwise it is the first user with that email. |
| Store.UserCollection.FindOne | back-end/main.py:43 | `find_one({"email": email})` returns the first user with that email, or None. |
| Store.UserCollection.InsertOne | back-end/main.py:47-50 | Appends exactly one user, with the given email and hash. |
| ScoreSort.Insert | back-end/rag.py:96 | Puts an element in front of the first element whose score is not above its own, adding exactly one element. `InsertSortedPermutation` and `InsertWithScore` say what it keeps. |
| ScoreSort.SortByScore | back-end/rag.py:96 | Defines `list.sort(key=score, reverse=True)` as repeated insertion. It keeps the length. `SortSortedPermutation` and `SortStable` prove it is the stable descending sort. |
| ScoreSort.InsertSortedPermutation | back-end/rag.py:96 | Inserting into a descending list keeps it descending and adds exactly that element. |
| ScoreSort.SortSortedPermutation | back-end/rag.py:96 | The sort returns a permutation of its input, in non-increasing score order. |
| ScoreSort.InsertWithScore | back-end/rag.py:96 | An inserted element goes in front of every element that has its own score. |
| ScoreSort.SortStable | back-end/rag.py:96 | For every score, the elements with that score come out in their input order. |
| ScoreSort.SortKeepsTieOrder | back-end/rag.py:96 | Two sorted elements with the same score appear in the input in the same relative order. |
| ScoreSort.SortMapItems | back-end/rag.py:96 | `key=lambda x: x[1]` looks only at the score. So replacing the item of every pair while keeping its score (the helper `MapItems`) commutes with the sort. |
| Rag.ScanEnd | back-end/rag.py:80-86 | Gives the first document the loop cannot score because `doc["texto"]` raises KeyError. Every earlier document can be scored. |
| Rag.ScanStop | back-end/rag.py:80-94 | Gives how many documents the scan deals with before it stops. That is where a foreign call raises, if this comes no later than the first document that cannot be scored; otherwise it is that document. It is never past it, and with no raise it is exactly it. |
| Rag.Backfill | back-end/rag.py:81-91 | What the loop does to one document. Id and `texto` stay; a document with an embedding is unchanged; afterwards it has an embedding exactly when it had one or had a `texto`. |
| Rag.BackfillPrefix | back-end/rag.py:80-91 | The collection after the loop has backfilled its first `k` documents has as many documents as before. |
| Rag.PendingWrites | back-end/rag.py:84-91 | Gives the `update_one` calls of a scan, in store order, at most one per document. `PendingWritesExact` states which. |
| Rag.ScoreDocs | back-end/rag.py:93-94 | Gives one `(doc, similarity)` pair per document, in store order. |
| Rag.Ranking | back-end/rag.py:96 | The scored list after the sort, one entry per document. `RankingEntries` proves it is the sorted permutation. |
| Rag.Selected | back-end/rag.py:99 | The selection has min(3, n) documents. |
| Rag.Retrieval | back-end/rag.py:64-103 | What `recuperar_informacoes_relevantes` returns when no foreign call raises. A document that cannot be scored gives KeyError at the first such document. A success has min(3, n) documents, each with a `texto`. `RetrievalIsTopK` states the rest. |
| Rag.RetrievalWith | back-end/rag.py:64-103 | Adds the foreign call raising. The result is the failure `CallFailed` exactly when the raise comes first. With no raise it is `Retrieval`. |
| Rag.ScanOutcome | back-end/rag.py:80-94 | What the loop ends with. It succeeds exactly when nothing raises and every document can be scored, and then has one scored pair per document. |
| Rag.ScanDoc | back-end/rag.py:81-91 | One loop iteration. It returns the stored embedding, or else `encode(texto)`. It writes back exactly when the document lacks an embedding, and only then changes the collection. |
| Rag.ScanLoop | back-end/rag.py:80-94 | The iterations that complete. They stop at the end, at a document that cannot be scored, or where a foreign call raises. Every document before the stop can be scored and has been backfilled; the writes are the pending ones and the scored list is that of those documents. |
| Rag.ScanAndBackfill | back-end/rag.py:75-94 | The loop over what `find({})` returned ends as `ScanOutcome` says: the scored list in store order, KeyError at the first document that cannot be scored, or the raised call. The documents dealt with before the stop stay backfilled, and their writes stay issued. |
| Rag.FirstUnprintable | back-end/rag.py:100-101 | Finds the first selected document without `texto`, where slicing `doc.get('texto')` raises TypeError. |
| Rag.Retrieve | back-end/rag.py:64-103 | `recuperar_informacoes_relevantes` returns or raises exactly what `RetrievalWith` gives for the store as it was read. The collection afterwards is backfilled up to where the scan stopped, with the matching writes, even when it raised. The id counter is unchanged. |
| Rag.RetrievalEmptyStore | back-end/rag.py:75-103 | An empty collection gives an empty result, issues no write and changes nothing. |
| Rag.RankingEntries | back-end/rag.py:93-96 | The sorted list is a permutation of the scored list, in non-increasing order. Each entry is a stored document paired with its own score. |
| Rag.SelectedFromStore | back-end/rag.py:99 | The selection has min(3, n) documents. Each comes from the store and is the item of the ranking entry at the same position. |
| Rag.SelectedRanked | back-end/rag.py:93-96 | The selection is in non-increasing order of similarity to the question. |
| Rag.SelectedIsTop | back-end/rag.py:96-99 | No document left out scores strictly above a selected one. |
| Rag.SelectedTiesInStoreOrder | back-end/rag.py:96 | Selected documents with equal scores appear in store order. |
| Rag.RetrievalIsTopK | back-end/rag.py:93-99 | A successful retrieval returns min(3, n) stored documents, each with a `texto`. They are ranked by non-increasing similarity, none left out scores higher, and ties keep store order. |
| Rag.RetrievalFailsOnMalformed | back-end/rag.py:84-86 | A document with neither an embedding nor a `texto` makes retrieval fail with KeyError. The error names the first such document, not a later one. |
| Rag.ScanEndAtMost | back-end/rag.py:80-86 | The loop stops at or before any document it cannot score. |
| Rag.ScanEndAtLeast | back-end/rag.py:80-86 | If the first `i` documents can all be scored, the loop gets at least that far. |
| Rag.PendingWritesPrefix | back-end/rag.py:84-91 | The writes of a shorter scan are the leading writes of a longer one. |
| Rag.PartialScanKeepsEarlierWrites | back-end/rag.py:80-94 | A scan stopped by a raising call keeps what it did. Its writes are the leading writes of the scan that did not raise. The documents it dealt with are backfilled as that scan leaves them, and the rest are untouched. |
| Rag.BackfillOnlyEmbedding | back-end/rag.py:81-91 | Backfill changes only `embedding`. A document that has an embedding, or that the loop did not reach, is left alone. A scanned document without one gets `encode(texto)`. |
| Rag.PendingWritesExact | back-end/rag.py:81-91 | There is one write for each document lacking an embedding, carrying `encode(texto)`. No write goes to a document that has an embedding, and no id is written twice. |
| Rag.NoPendingWritesWhenEmbedded | back-end/rag.py:81-83 | When every document has an embedding, the scan writes nothing. |
| Rag.SelectedAfterBackfill | back-end/rag.py:81-99 | Backfill does not change scores, so the selection from the backfilled store is the backfilled selection. |
| Rag.BackfillComplete | back-end/rag.py:84-91 | After a full scan every document has an embedding, and backfilling again changes nothing. |
| Rag.BackfillFixpoint | back-end/rag.py:81-91 | After a full scan, the store is a fixpoint of backfill and a second scan issues no write. |
| Rag.RetrievalAfterBackfill | back-end/rag.py:64-103 | Retrieval on the backfilled store returns the same documents, now with their embeddings, or fails the same way. |
| Rag.BackfillKeepsTextos | back-end/rag.py:100-101 | Backfill keeps ids and texts, so the first document without `texto` stays where it was. |
| Rag.RetrieveTwice | back-end/rag.py:64-103 | Idempotence. A second call on the unchanged store writes nothing and leaves the store as it is. It returns what the first call returned, with the embeddings that were written back. |
| Rag.PromptContextRoundTrip | back-end/rag.py:52-53 | The prompt is the fixed header, then the texts joined by newlines in retrieval order, then the question trailer. The context section reads back exactly. |
| Rag.Prompt | back-end/rag.py:52-53 | Defines the prompt of `gerar_resposta_com_ia`. It starts with the fixed instruction header and ends with the question trailer. `PromptContextRoundTrip` and `PromptRecoversTexts` prove the texts in between are the joined context. |
| Rag.PromptRecoversTexts | back-end/rag.py:52-53 | When no text contains a newline, the context section of the prompt splits back into the retrieved texts, in order. |
| Seed.StrippedPassos | back-end/seed.py:38 | There is one stripped text per `passo`. |
| Seed.StripAll | back-end/seed.py:38 | Each `passo` text is stripped and kept in document order. |
| Seed.Message | back-end/seed.py:39-40 | The message is longer than its fixed prefix, so the `if mensagem` guard always holds. |
| Seed.FormatMessage | back-end/seed.py:36-39 | The message of one `<erro>`: stripped description, stripped steps joined by newlines. It starts with "Rejeição " and the code, where a missing code renders as "None". `ParseFormatMessage` proves the parts read back. |
| Seed.FirstMalformed | back-end/seed.py:35-38 | Gives the first element whose message raises (no `descricao` text, or a `passo` without text). Every earlier element formats. |
| Seed.Messages | back-end/seed.py:35-41 | There is one message per element. |
| Seed.MessagesAt | back-end/seed.py:35-41 | Message `i` is the one built from element `i`, so the messages follow document order. |
| Seed.LoadMessages | back-end/seed.py:30-44 | `carregar_mensagens_xml` returns the messages of the elements before the first failure, or nothing when the file cannot be parsed. |
| Seed.MessagesOf | back-end/seed.py:30-44 | Gives what `carregar_mensagens_xml` returns. That is nothing for a file that does not parse. Otherwise it is one message for each element before the first that fails, never more than there are elements. |
| Seed.MessagesSnoc | back-end/seed.py:35-41 | One more element adds exactly its own message at the end. |
| Seed.MessagesPrefix | back-end/seed.py:35-41 | The messages of a prefix of the elements are a prefix of the messages. |
| Seed.FirstMalformedAtLeast | back-end/seed.py:35-38 | If the first `k` elements all format, the first failure is at `k` or later. |
| Seed.MessagesOfPrefix | back-end/seed.py:31-44 | When no element of a file fails, its messages are the leading messages of any longer file. |
| Seed.ReadStopsAtFailure | back-end/seed.py:42-44 | A failure inside a file stops reading there, whatever follows. |
| Seed.MessagesOfStopAtFailure | back-end/seed.py:42-44 | After a failing element, nothing that follows changes the result. |
| Seed.MessagesBeforeFailureKept | back-end/seed.py:31-44 | A failure partway keeps every message built before it, rather than returning nothing. |
| Seed.SplitCodeRoundTrip | back-end/seed.py:39 | The code part of a message reads back when it has no colon. |
| Seed.SplitDescricaoRoundTrip | back-end/seed.py:39 | The description reads back when it has no newline. |
| Seed.ParseMessageParts | back-end/seed.py:39 | A message splits back into its code, its description and its solution text. The code ends at the first colon and the description at the first newline, both found by the helper `FirstIndexOf`. |
| Seed.ParseMessageRoundTrip | back-end/seed.py:38-39 | With no colon in the code and no newline in the description or the steps, parsing the message gives back all three parts, with the steps in order. |
| Seed.ParseFormatMessage | back-end/seed.py:36-39 | For an `<erro>` element, parsing its message gives the code, the stripped description and the stripped steps. |
| Seed.NewDocsSnoc | back-end/seed.py:53-57 | Inserting one more text adds one document carrying it and its embedding. |
| Seed.Plan | back-end/seed.py:46-60 | Gives the texts `inserir_mensagens` inserts, in order, at most one per input text. `PlanFreshAndDistinct` and `PlanComplete` state which. |
| Seed.PlanStep | back-end/seed.py:47-60 | A text is inserted when its step did not raise and it is not yet stored. Then the collection grows by exactly one document with that text and `encode` of it. Otherwise nothing changes. |
| Seed.InsertIfAbsent | back-end/seed.py:48-60 | Inserts exactly when no exception occurred and the text is absent. The new document carries the text and its embedding. Otherwise the collection is unchanged. |
| Seed.InsertStep | back-end/seed.py:47-60 | One pass of the loop takes the collection from the plan of the texts before it to the plan including its own text. The id counter follows. |
| Seed.InsertMessages | back-end/seed.py:46-60 | The collection afterwards is the old one plus one document per planned text, in input order, each with its embedding and a fresh id. |
| Seed.PlanFreshAndDistinct | back-end/seed.py:47-57 | Every inserted text comes from the input and was not already stored. No text is inserted twice, even when the input repeats it. |
| Seed.PlanComplete | back-end/seed.py:59-60 | A failure on one text does not stop the rest. Every text at a position that did not raise ends up stored. |
| Seed.SeedKeepsTextosDistinct | back-end/seed.py:47-57 | A collection with no duplicate `texto` has none after seeding. |
| Seed.SeedTwiceInsertsNothing | back-end/seed.py:49-51 | Running the seed again with the same texts inserts nothing. |
| Seed.PlanNothingNew | back-end/seed.py:49-51 | Texts that are all stored already are all skipped. |
| Seed.SeedMain | back-end/seed.py:62-81 | The script stops without touching the collection exactly when `mensagens.xml` is missing or gives no message. Otherwise it inserts the loaded messages. |
| Api.AddReplyAsWritten | back-end/main.py:72-92 | Models `adicionar_mensagem` as written. The only error it returns is 500 "Erro ao salvar a mensagem". Success comes exactly when the stripped text is non-empty and nothing raised. |
| Api.AddReply | back-end/main.py:75-77 | The corrected reply. The error status is 400 or 500. |
| Api.AddTry | back-end/main.py:74-88 | The `try` body raises the 400 exactly when the stripped text is empty. Another exception comes exactly when the text is not blank and a call raised. It succeeds otherwise. |
| Api.BlankMessageGets500AsWritten | back-end/main.py:75-77 | For the text "   ", the code as written answers 500, while the corrected reply answers 400 "Texto vazio não permitido". |
| Api.AddReplyDistinguishesBlank | back-end/main.py:75-92 | With the 400 passed through, the reply is 400 exactly when the text is blank. It is 500 exactly on a failure with a non-blank text, and success otherwise. |
| Api.AddedDoc | back-end/main.py:75-86 | A document is stored exactly when the add succeeds. Its `texto` is the stripped input and its embedding is `encode` of that same stripped text. |
| Api.AddMessageAsWritten | back-end/main.py:72-92 | The handler as written replies as `AddReplyAsWritten` does. It inserts exactly the one document `AddedDoc`, or nothing, and changes nothing else. |
| Api.AddMessage | back-end/main.py:72-92 | The corrected handler replies as `AddReply` does, with the same effect on the collection. |
| Api.AddBody | back-end/main.py:75-88 | Models the `try` body. A blank text raises 400 before anything is stored. A fault stores nothing. Otherwise exactly one document is appended. |
| Api.AddedDocNeedsNoBackfill | back-end/main.py:80-86 | The document `/mensagens` builds carries its embedding. Appended to documents that all have one, the result still does, and a scan over it has nothing to write back. |
| Api.Registration | back-end/main.py:41-52 | Registration fails exactly when the email is taken, with 400 "Email já cadastrado" and the users unchanged. Otherwise it appends exactly one user with that email and the hash of the password, and echoes the request. |
| Api.RegisterUser | back-end/main.py:41-52 | The handler's reply and the user collection afterwards are those of `Registration`. |
| Api.RegistrationKeepsEmailsDistinct | back-end/main.py:43-50 | If emails are distinct before a registration, they are distinct after it. |
| Api.RegisterTwiceFails | back-end/main.py:43-44 | A second registration of the same email fails with 400 and changes nothing. |
| Api.Login | back-end/main.py:27-38 | Every failure is 401 "Credenciais inválidas". An unknown email fails. Success gives a bearer token for the email. |
| Api.LoginUser | back-end/main.py:27-38 | The handler replies as `Login` on the stored users and writes nothing. |
| Api.LoginSucceedsIff | back-end/main.py:29-38 | A token is issued exactly when the email is registered and the password checks against the hash stored for the first user with that email. |
| Api.RegisterThenLogin | back-end/main.py:27-52 | If bcrypt checks a password against its own hash, a successful registration lets the same email and password log in. |
| Api.InteractionLog.Record | back-end/main.py:63 | Appends exactly one interaction to the log. |
| Api.ContextTexts | back-end/main.py:63 | Gives one text per retrieved document, each document's `texto` at its own position. |
| Api.Answering | back-end/main.py:58-63 | A completed answer logs the question it was asked. |
| Api.Answer | back-end/main.py:57-65 | Retrieval, then generation, then logging. A failing step stops the later ones and logs nothing; this includes a foreign call raising inside retrieval. On success the answer is returned and exactly one interaction is logged. The backfill writes retrieval made before it stopped remain. |
| Api.AnswerUsesRetrievedContext | back-end/main.py:60-63 | A successful answer means retrieval neither raised nor failed. The model is given the prompt over exactly the retrieved texts, in ranking order, and those are the texts logged. |
| Api.AnswerNeedsRetrieval | back-end/main.py:60-61 | A failed retrieval, whether by KeyError, TypeError or a raised call, stops the pipeline before the model is asked. |
| Api.RaiseInRetrievalStopsAnswer | back-end/main.py:60-61 | A foreign call raising inside retrieval stops the pipeline before the model is asked. |
| Api.PerguntaReply | back-end/main.py:65-69 | `/pergunta` replies with the answer, or with 500 "Erro interno no servidor" for any failure. |
| Api.IaReply | back-end/main.py:106-110 | `/ia/responder` replies with status 200 and `resposta` exactly on success. Otherwise it replies 500 with `erro` "Erro ao processar a pergunta". |
| Api.ResponderPergunta | back-end/main.py:55-69 | Success comes exactly when retrieval and generation succeed, no foreign call raised in retrieval, and logging does not raise. An error is always 500, and then nothing is logged. |
| Api.ResponderIa | back-end/main.py:96-110 | Status 200 comes exactly when retrieval, generation and logging all succeed. Otherwise the reply is the fixed 500 body and nothing is logged. |

## Left out

- Cosine similarity (`sklearn`, numpy reshaping) is the uninterpreted function `sim`, because it is floating-point arithmetic in a foreign library. Scores are reals, and ties are exact equalities of those reals.
- Rag.RetrieveTwice: assumes a stored embedding scores exactly as the one computed from the same text. In the source, the first call scores the freshly computed float32 array (rag.py:86-87), while a later call scores the float64 list read back (rag.py:82). The two similarities can differ in the last bits, so near-equal scores may come out in a different order.
- Rag.RetrievalAfterBackfill: makes the same assumption as `Rag.RetrieveTwice`, that the float64 list read back scores exactly as the float32 array it came from.
- Rag.ScanDoc: models an iteration that completes. A call raising inside the iteration is modelled one level up, where `Rag.ScanLoop` stops before that document.
- A stored `embedding` whose value is null is modelled as an absent embedding, so the model backfills it. In the source it passes `"embedding" in doc` (rag.py:81) and the similarity raises. In the model that is only a raised call through `raisesAt`, not its cause.
- The embedding model, the LLaMA model and its tokenizer, `detectar_tipo_tensor`, timing and every `print` are left out as foreign or hardware-dependent calls. The encoder is the parameter `encode`, given separately to each operation. `rag.py`, and `main.py` through its import, use `all-MiniLM-L6-v2` (rag.py:11). `seed.py` loads a different model (seed.py:18). So the embeddings seeding stores are not those retrieval would compute, and nothing in the model relates the two encoders. Generation is `generate`, which gives None when the model raises. The decoded model output is not modelled.
- The question's embedding `encode([pergunta])` is taken to be the same function as the document encoder. The model does not distinguish the batch shape.
- MongoDB connection set-up (`database.py`, `main.py:17-21`, `seed.py:21-28`) is I/O and is left out. Retrieval reads `colecao_mensagens` of `database.py`, which is the collection "messages" (database.py:13). `/mensagens` and `seed.py` write "mensagens" (main.py:21, seed.py:25). As written, documents added or seeded never reach retrieval. The model gives each operation a `Collection` object and does not say which one is shared.
- MongoDB's generation of fresh `_id` values is the counter `nextId`.
- `registrar_interacao` is imported by `main.py` (main.py:7) from `rag.py`, which does not define it. As written, importing `main.py` raises ImportError and none of its handlers run. The model assumes a definition: an append to an `InteractionLog` that may raise (`logFails`).
- XML parsing with ElementTree is left out. The parsed list of `<erro>` elements is the input, and a file that does not parse is `Unreadable`.
- `os.path.exists("mensagens.xml")` is the parameter `xmlExists`. `sys.exit` is the outcome `NothingToInsert`.
- bcrypt is left out. `hashpw` and `checkpw` are parameters, and the salt from `bcrypt.gensalt()` is the parameter `salt`.
- JWT encoding (`auth.py`, `create_access_token`) is the parameter `issue`. The expiry time it adds is left out, and so is its error path: on a `JWTError` it raises `HTTPException`, which `auth.py` never imports, so the exception that reaches the client there is not modelled.
- `models.py` and `schemas.py` hold pydantic declarations and are left out. Request validation by FastAPI is not modelled.
- `utils.py` and the front-end JavaScript are not part of this model.
- Concurrency between requests is not modelled. Each handler runs alone on the collection.
- Exceptions from the database or the encoder in the middle of a step are all-or-nothing. A faulting step of `inserir_mensagens` or `/mensagens` stores nothing, and the model does not cover a failure after `insert_one` has written. In retrieval, a raise is placed between documents. A raising `update_one` that has already written counts as a raise after that document.
- Seed.Message: its own contract states only that the message is longer than the prefix. The exact layout is stated by the round-trip lemmas (`Seed.ParseMessageRoundTrip`, `Seed.ParseFormatMessage`), not by an ensures restating the f-string.
- PyStrings.IsSpace: it covers the code points for which Python's `str.isspace()` is true. Unicode normalisation does not arise.

## Findings

| source | as written | input that shows it | evidently intended | confidence | as-written member | corrected member |
|---|---|---|---|---|---|---|
| back-end/main.py:75-77, 90-92 | The `HTTPException(400, "Texto vazio não permitido")` is raised inside the `try`, and `except Exception` catches it and raises 500 "Erro ao salvar a mensagem" instead. | `texto = "   "` | 400 "Texto vazio não permitido" for a blank text, and 500 only when saving fails | not executed | Api.AddReplyAsWritten, Api.BlankMessageGets500AsWritten | Api.AddReply, Api.AddReplyDistinguishesBlank |
