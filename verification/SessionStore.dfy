// Sessions in Redis: a key with a deadline per token hash, and per user a set of hashes with a
// deadline of its own (internal/db/redis_session_store.go).
//
// Instants are milliseconds since Go's zero time, the resolution of Redis's expiry clock. A key
// exists up to and including its deadline.
module SessionStore {
  import opened Wrappers

  const SECOND: int := 1000
  const DAY: int := 86_400_000
  const INDEX_SLACK: int := DAY

  datatype Session = Session(userID: int, hash: string, expiresAt: int, createdAt: int)

  datatype Error = NotFound | Expired | TokenConflict | Forbidden | InvalidToken | FieldMissing | UserNotFound

  datatype Cell = Cell(session: Session, deadline: int)
  datatype Index = Index(hashes: set<string>, deadline: int)
  datatype Store = Store(data: map<string, Cell>, index: map<int, Index>)

  const EMPTY_STORE := Store(map[], map[])

  predicate Live(st: Store, now: int, hash: string) {
    hash in st.data && now <= st.data[hash].deadline
  }

  function Hashes(st: Store, now: int, userID: int): set<string> {
    if userID in st.index && now <= st.index[userID].deadline then st.index[userID].hashes else {}
  }

  // EXPIRE and EXAT count whole seconds.
  function WholeSeconds(t: int): int {
    t / SECOND * SECOND
  }

  // SADD of the hash, then EXPIRE of the whole index: every write sets one deadline for all members.
  function Touch(st: Store, slack: int, now: int, s: Session): map<int, Index> {
    st.index[s.userID := Index(Hashes(st, now, s.userID) + {s.hash}, now + WholeSeconds(s.expiresAt - now + slack))]
  }

  // SET NX with a TTL; the index is written also when the hash is taken.
  function Create(st: Store, slack: int, now: int, s: Session): (Store, Result<Session, Error>) {
    if s.expiresAt - now <= 0 then (st, Err(Expired))
    else
      var index := Touch(st, slack, now, s);
      if Live(st, now, s.hash) then (Store(st.data, index), Err(TokenConflict))
      else (Store(st.data[s.hash := Cell(s, s.expiresAt)], index), Ok(s))
  }

  function Get(st: Store, now: int, hash: string): Result<Session, Error> {
    if !Live(st, now, hash) then Err(NotFound)
    else if st.data[hash].session.expiresAt < now then Err(Expired)
    else Ok(st.data[hash].session)
  }

  // SET XX EXAT; the index is written also when the key is gone.
  function Update(st: Store, slack: int, now: int, s: Session): (Store, Result<(), Error>) {
    if s.expiresAt - now <= 0 then (st, Err(Expired))
    else
      var index := Touch(st, slack, now, s);
      if !Live(st, now, s.hash) then (Store(st.data, index), Err(NotFound))
      else (Store(st.data[s.hash := Cell(s, WholeSeconds(s.expiresAt))], index), Ok(()))
  }

  // UNLINK and SREM; the outcome says whether the key was there.
  function Delete(st: Store, now: int, userID: int, hash: string): (Store, Result<(), Error>) {
    var index :=
      if userID in st.index then
        st.index[userID := st.index[userID].(hashes := st.index[userID].hashes - {hash})]
      else st.index;
    (Store(st.data - {hash}, index), if Live(st, now, hash) then Ok(()) else Err(NotFound))
  }

  function DeleteByUserID(st: Store, now: int, userID: int): Store {
    var hashes := Hashes(st, now, userID);
    if hashes == {} then st else Store(st.data - hashes, st.index - {userID})
  }

  class RedisSessionStore {
    var data: map<string, Cell>
    var index: map<int, Index>

    constructor ()
      ensures View() == EMPTY_STORE
    {
      data := map[];
      index := map[];
    }

    function View(): Store
      reads this
    {
      Store(data, index)
    }

    method SetMember(s: Session, now: int)
      modifies this`index
      ensures index == Touch(old(View()), INDEX_SLACK, now, s)
    {
      var ttl := s.expiresAt - now;
      var members := Hashes(View(), now, s.userID) + {s.hash};
      index := index[s.userID := Index(members, now + WholeSeconds(ttl + INDEX_SLACK))];
    }

    method Insert(s: Session, now: int) returns (r: Result<Session, Error>)
      modifies this
      ensures (View(), r) == Create(old(View()), INDEX_SLACK, now, s)
      ensures s.expiresAt > now ==>
        && s.userID in index && index[s.userID].hashes == Hashes(old(View()), now, s.userID) + {s.hash}
        && index[s.userID].deadline == now + (s.expiresAt - now + 86_400_000) / 1000 * 1000
    {
      var ttl := s.expiresAt - now;
      if ttl <= 0 {
        return Err(Expired);
      }
      var taken := Live(View(), now, s.hash);
      SetMember(s, now);
      if taken {
        return Err(TokenConflict);
      }
      data := data[s.hash := Cell(s, now + ttl)];
      return Ok(s);
    }

    method Read(hash: string, now: int) returns (r: Result<Session, Error>)
      ensures r == Get(View(), now, hash)
    {
      if !Live(View(), now, hash) {
        return Err(NotFound);
      }
      var s := data[hash].session;
      if s.expiresAt < now {
        return Err(Expired);
      }
      return Ok(s);
    }

    method Replace(s: Session, now: int) returns (r: Result<(), Error>)
      modifies this
      ensures (View(), r) == Update(old(View()), INDEX_SLACK, now, s)
      ensures s.expiresAt > now ==>
        && s.userID in index && index[s.userID].hashes == Hashes(old(View()), now, s.userID) + {s.hash}
        && index[s.userID].deadline == now + (s.expiresAt - now + 86_400_000) / 1000 * 1000
    {
      var ttl := s.expiresAt - now;
      if ttl <= 0 {
        return Err(Expired);
      }
      var present := Live(View(), now, s.hash);
      SetMember(s, now);
      if !present {
        return Err(NotFound);
      }
      data := data[s.hash := Cell(s, WholeSeconds(s.expiresAt))];
      return Ok(());
    }

    method Remove(userID: int, hash: string, now: int) returns (r: Result<(), Error>)
      modifies this
      ensures (View(), r) == Delete(old(View()), now, userID, hash)
      ensures hash !in data && (userID in index ==> hash !in index[userID].hashes)
    {
      r := if Live(View(), now, hash) then Ok(()) else Err(NotFound);
      data := data - {hash};
      if userID in index {
        index := index[userID := index[userID].(hashes := index[userID].hashes - {hash})];
      }
    }

    method RemoveByUserID(userID: int, now: int)
      modifies this
      ensures View() == DeleteByUserID(old(View()), now, userID)
      ensures Hashes(View(), now, userID) == {} && data == old(data) - Hashes(old(View()), now, userID)
    {
      var hashes := Hashes(View(), now, userID);
      if hashes == {} {
        return;
      }
      var rest := hashes;
      while rest != {}
        invariant rest <= hashes
        invariant data == old(data) - (hashes - rest)
        invariant index == old(index)
        decreases rest
      {
        var hash :| hash in rest;
        data := data - {hash};
        rest := rest - {hash};
      }
      index := index - {userID};
    }
  }
}
