/** The in-memory session manager (`service/session/inmemory/session.go`):
    a map from session id to session.  Each operation takes the store and
    gives back the store it leaves behind; the lock that serialises them in
    the source is not modelled, so operations are sequential. */
module SessionStore {
  import opened Wrappers
  import opened Errors
  import opened Sessions

  type Store = map<string, Session>

  /** The text form of a UUID: 36 characters. */
  type Uuid = s: string | |s| == 36 witness "00000000-0000-0000-0000-000000000000"

  /** What `uuid.NewUUID` answers: a time-based id, or the text of a plain
      Go error.  The id generator is an oracle; nothing here assumes that
      its ids are new. */
  datatype IdReply = NewId(uuid: Uuid) | IdError(reason: string)

  /** A call's result together with the store it leaves. */
  datatype Outcome<T> = Outcome(store: Store, result: Result<T, Error>)

  /** The error of a failed id generation. */
  function IdGenerationFailed(reason: string): (e: Error)
    ensures GetErrCode(Some(e)) == 0
  {
    assert Find(Based(External(reason)), Coder).None?;
    Wrap(Some(External(reason)), "failed to generate session id").value
  }

  /** `create`: a failed id generation leaves the store as it was; otherwise
      the new session is stored under its id, replacing nothing else. */
  function Create(st: Store, userId: string, data: Option<Bag>, id: IdReply): (r: Outcome<Session>)
    ensures r.result.Failure? <==> id.IdError?
    ensures id.IdError? ==> r.store == st && r.result.error == IdGenerationFailed(id.reason)
    ensures r.result.Success? ==>
      var s := r.result.value;
      && s.id == id.uuid && s.id != "" && s.userId == userId && s.data == data.GetOr(map[])
      && r.store.Keys == st.Keys + {s.id}
      && r.store[s.id] == s
      && (forall k :: k in st && k != s.id ==> r.store[k] == st[k])
  {
    match id
    case IdError(reason) => Outcome(st, Failure(IdGenerationFailed(reason)))
    case NewId(u) =>
      var s := NewSession(u, userId, data);
      Outcome(st[u := s], Success(s))
  }

  /** `CreateTemp`: a session with an empty user id. */
  function CreateTemp(st: Store, data: Option<Bag>, id: IdReply): (r: Outcome<Session>)
    ensures r.result.Failure? <==> id.IdError?
    ensures id.IdError? ==> r.store == st && r.result.error == IdGenerationFailed(id.reason)
    ensures r.result.Success? ==>
      && r.result.value == Session(id.uuid, "", data.GetOr(map[]))
      && r.store == st[id.uuid := r.result.value]
  {
    Create(st, "", data, id)
  }

  /** The error of `Get` for an id the store does not hold. */
  function NotFound(id: string): Error {
    New("session not found by id " + id)
  }

  /** `Get`: reading never changes the store. */
  function Get(st: Store, id: string): (r: Result<Session, Error>)
    ensures r.Success? <==> id in st
    ensures r.Success? ==> r.value == st[id]
    ensures r.Failure? ==> r.error == NotFound(id)
  {
    if id in st then Success(st[id]) else Failure(NotFound(id))
  }

  /** `Destroy`: removes the id, if present, and never fails. */
  function Destroy(st: Store, id: string): (r: Store)
    ensures r.Keys == st.Keys - {id}
    ensures forall k :: k in r ==> r[k] == st[k]
  {
    st - {id}
  }

  /** A session just created is what `Get` returns for its id. */
  lemma GetAfterCreate(st: Store, userId: string, data: Option<Bag>, id: IdReply)
    requires id.NewId?
    ensures var c := Create(st, userId, data, id);
      Get(c.store, id.uuid) == c.result
  {
  }

  /** Creating a session leaves every other session retrievable as before. */
  lemma CreateKeepsOthers(st: Store, userId: string, data: Option<Bag>, id: IdReply, other: string)
    requires id.IdError? || other != id.uuid
    ensures Get(Create(st, userId, data, id).store, other) == Get(st, other)
  {
  }

  /** After `Destroy`, the id is gone and every other id reads as before. */
  lemma GetAfterDestroy(st: Store, id: string, other: string)
    ensures Get(Destroy(st, id), id) == Failure(NotFound(id))
    ensures other != id ==> Get(Destroy(st, id), other) == Get(st, other)
  {
  }

  /** Destroying an absent id changes nothing, so `Destroy` is idempotent. */
  lemma DestroyIdempotent(st: Store, id: string)
    ensures id !in st ==> Destroy(st, id) == st
    ensures Destroy(Destroy(st, id), id) == Destroy(st, id)
  {
    assert id !in Destroy(st, id);
  }

  /** A fresh id grows the store by exactly one session; destroying a
      present one shrinks it by exactly one. */
  lemma StoreSizes(st: Store, userId: string, data: Option<Bag>, u: Uuid)
    ensures u !in st ==> |Create(st, userId, data, NewId(u)).store| == |st| + 1
    ensures u in st ==> |Destroy(st, u)| == |st| - 1
  {
    var c := Create(st, userId, data, NewId(u));
    if u !in st {
      assert c.store.Keys == st.Keys + {u};
      assert |c.store.Keys| == |st.Keys| + 1;
    } else {
      assert Destroy(st, u).Keys == st.Keys - {u};
      assert |Destroy(st, u).Keys| == |st.Keys| - 1;
    }
  }
}
