/**
 * The MongoDB collections the back end talks to, as objects whose contents the
 * operations update in place. Only the calls the core makes are modelled:
 * `find({})`, `find_one` by a field, `insert_one`, and `update_one` by `_id`
 * with a `$set` of the `embedding` field.
 */
module Store {
  import opened Wrappers

  type Text = string

  /** An embedding vector, as the list of floats stored in the document. */
  type Vec = seq<real>

  /**
   * A document of the message collection: its `_id`, and the `texto` and
   * `embedding` fields, either of which a stored document may lack.
   */
  datatype Doc = Doc(id: nat, texto: Option<Text>, embedding: Option<Vec>)

  /** One `update_one({"_id": id}, {"$set": {"embedding": embedding}})` call. */
  datatype Write = SetEmbedding(id: nat, embedding: Vec)

  predicate UniqueIds(docs: seq<Doc>) {
    forall i, j :: 0 <= i < j < |docs| ==> docs[i].id != docs[j].id
  }

  /** The `texto` values present in the collection. */
  function Textos(docs: seq<Doc>): set<Text> {
    set d | d in docs && d.texto.Some? :: d.texto.value
  }

  /**
   * The effect of one `update_one` with a `$set` of `embedding`: the first
   * document whose `_id` matches gets that field replaced; nothing else changes.
   */
  function SetEmbeddingOf(docs: seq<Doc>, id: nat, e: Vec): (r: seq<Doc>)
    ensures |r| == |docs|
    ensures forall i :: 0 <= i < |docs| ==> r[i].id == docs[i].id && r[i].texto == docs[i].texto
  {
    if docs == [] then []
    else if docs[0].id == id then [docs[0].(embedding := Some(e))] + docs[1..]
    else [docs[0]] + SetEmbeddingOf(docs[1..], id, e)
  }

  /** With unique ids, updating the document at position `i` by its id touches that position only. */
  lemma {:induction false} SetEmbeddingAt(docs: seq<Doc>, i: nat, e: Vec)
    requires UniqueIds(docs) && i < |docs|
    ensures SetEmbeddingOf(docs, docs[i].id, e) == docs[i := docs[i].(embedding := Some(e))]
  {
    if i > 0 {
      assert docs[0].id != docs[i].id;
      assert UniqueIds(docs[1..]) by {
        forall a, b | 0 <= a < b < |docs[1..]| ensures docs[1..][a].id != docs[1..][b].id {
          assert docs[1..][a] == docs[a + 1] && docs[1..][b] == docs[b + 1];
        }
      }
      SetEmbeddingAt(docs[1..], i - 1, e);
      assert docs[1..][i - 1 := docs[i].(embedding := Some(e))] == docs[i := docs[i].(embedding := Some(e))][1..];
    }
  }

  /** The documents `insert_one` adds for `texts`, with ids handed out from `nextId` on. */
  function NewDocs(nextId: nat, texts: seq<Text>, encode: Text -> Vec): (r: seq<Doc>)
    ensures |r| == |texts|
  {
    seq(|texts|, k requires 0 <= k < |texts| => Doc(nextId + k, Some(texts[k]), Some(encode(texts[k]))))
  }

  lemma {:induction false} TextosAppend(docs: seq<Doc>, nextId: nat, texts: seq<Text>, encode: Text -> Vec)
    ensures Textos(docs + NewDocs(nextId, texts, encode)) == Textos(docs) + set t | t in texts
  {
    var all := docs + NewDocs(nextId, texts, encode);
    forall t | t in texts ensures t in Textos(all) {
      var k :| 0 <= k < |texts| && texts[k] == t;
      assert all[|docs| + k].texto == Some(t);
    }
    forall t | t in Textos(all) ensures t in Textos(docs) || t in texts {
      var d :| d in all && d.texto == Some(t);
      var p :| 0 <= p < |all| && all[p] == d;
      if p >= |docs| { assert texts[p - |docs|] == t; }
      else { assert docs[p] == d; }
    }
  }

  /** The message collection (`mensagens` in main.py and seed.py, `messages` in database.py). */
  class Collection {
    var docs: seq<Doc>
    /** Stands for MongoDB's generator of fresh `_id` values. */
    var nextId: nat
    /** Every `update_one` issued on this collection, in order. */
    ghost var writes: seq<Write>

    ghost predicate Valid()
      reads this
    {
      UniqueIds(docs) && forall i :: 0 <= i < |docs| ==> docs[i].id < nextId
    }

    constructor ()
      ensures Valid() && docs == [] && writes == []
    {
      docs := [];
      nextId := 0;
      writes := [];
    }

    /** `find({})`: every document, in store order. */
    method FindAll() returns (r: seq<Doc>)
      ensures r == docs
    {
      r := docs;
    }

    /** `find_one({"texto": t})`, reduced to whether a match exists. */
    method HasTexto(t: Text) returns (found: bool)
      ensures found <==> t in Textos(docs)
    {
      found := exists i | 0 <= i < |docs| :: docs[i].texto == Some(t);
      if found {
        var i :| 0 <= i < |docs| && docs[i].texto == Some(t);
        assert docs[i] in docs;
      }
    }

    /** `insert_one({"texto": t, "embedding": e})`, which gives the new document a fresh `_id`. */
    method InsertOne(t: Text, e: Vec) returns (id: nat)
      requires Valid()
      modifies this
      ensures Valid()
      ensures id == old(nextId) && nextId == id + 1
      ensures docs == old(docs) + [Doc(id, Some(t), Some(e))]
      ensures writes == old(writes)
    {
      id := nextId;
      docs := docs + [Doc(id, Some(t), Some(e))];
      nextId := nextId + 1;
    }

    /** `update_one({"_id": id}, {"$set": {"embedding": e}})`. */
    method UpdateEmbedding(id: nat, e: Vec)
      requires Valid()
      modifies this
      ensures Valid()
      ensures docs == SetEmbeddingOf(old(docs), id, e)
      ensures writes == old(writes) + [SetEmbedding(id, e)]
      ensures nextId == old(nextId)
    {
      docs := SetEmbeddingOf(docs, id, e);
      writes := writes + [SetEmbedding(id, e)];
    }
  }

  /** A document of the user collection (`usuarios`): the email and the stored password hash. */
  datatype User = User(email: Text, senha: Text)

  /** The first user with the given email, as `find_one({"email": email})` returns it. */
  function FindUser(users: seq<User>, email: Text): (r: Option<User>)
    ensures r.None? <==> forall i :: 0 <= i < |users| ==> users[i].email != email
    ensures r.Some? ==> r.value.email == email && exists i :: (0 <= i < |users| && users[i] == r.value
      && forall j :: 0 <= j < i ==> users[j].email != email)
  {
    if users == [] then None
    else if users[0].email == email then Some(users[0])
    else
      var r := FindUser(users[1..], email);
      assert forall j :: 1 <= j < |users| ==> users[j] == users[1..][j - 1];
      r
  }

  /** The user collection. */
  class UserCollection {
    var users: seq<User>

    constructor ()
      ensures users == []
    {
      users := [];
    }

    /** `find_one({"email": email})`. */
    method FindOne(email: Text) returns (r: Option<User>)
      ensures r == FindUser(users, email)
    {
      r := FindUser(users, email);
    }

    /** `insert_one({"email": email, "senha": senha})`. */
    method InsertOne(email: Text, senha: Text)
      modifies this
      ensures users == old(users) + [User(email, senha)]
    {
      users := users + [User(email, senha)];
    }
  }
}
