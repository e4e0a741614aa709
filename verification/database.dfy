/** The database as the handlers see it: the users table with its id
    sequence, and the table of revoked tokens with a unique index on the
    token, which is a set of strings here. */
module Database {
  import opened Wrappers
  import opened Model
  import opened Http

  datatype Store = Store(users: map<nat, User>, nextId: nat) {
    /** Every record sits under its own primary key, and keys come from a
        sequence starting at 1 that never hands out a key twice. */
    predicate Valid() {
      && nextId >= 1
      && forall k :: k in users ==> users[k].id == k && 1 <= k < nextId
    }
  }

  datatype State = State(store: Store, revoked: set<string>) {
    predicate Valid() {
      store.Valid()
    }
  }

  /** A key the sequence has handed out that holds no record: it belonged
      to a deleted record, and the sequence never hands it out again. */
  predicate Retired(s: Store, k: nat) {
    k < s.nextId && k !in s.users
  }

  /** `after` never rewinds the id sequence and fills no retired key. */
  predicate SequenceKept(before: Store, after: Store) {
    && before.nextId <= after.nextId
    && forall k: nat :: k < before.nextId && k !in before.users ==> Retired(after, k)
  }

  /** What a handler produces: its response and the state after it. */
  datatype Step = Step(resp: Response, st: State)

  /** A fresh deployment: no users, nothing revoked. */
  const Initial: State := State(Store(map[], 1), {})

  /** Some stored user has this email (emails are not unique in the table). */
  predicate EmailTaken(s: Store, email: string) {
    exists k :: k in s.users && s.users[k].email == email
  }

  /** Some stored user has primary key `n`. */
  predicate Stored(s: Store, n: int) {
    n >= 0 && n in s.users
  }

  /** Smallest key in [k, hi) of a user the condition selects. */
  function FirstWhere(users: map<nat, User>, selects: User -> bool, k: nat, hi: nat): (r: Option<nat>)
    decreases hi - k
    ensures r.Some? ==> k <= r.value < hi && r.value in users && selects(users[r.value])
    ensures r.Some? ==> forall j :: k <= j < r.value && j in users ==> !selects(users[j])
    ensures r.None? ==> forall j :: k <= j < hi && j in users ==> !selects(users[j])
  {
    if k >= hi then None
    else if k in users && selects(users[k]) then Some(k)
    else FirstWhere(users, selects, k + 1, hi)
  }

  /** `First` under a condition: the selected user with the smallest primary
      key, if the condition selects any. */
  function FindFirst(s: Store, selects: User -> bool): (r: Option<User>)
    requires s.Valid()
    ensures r.Some? <==> exists k :: k in s.users && selects(s.users[k])
    ensures r.Some? ==> r.value.id in s.users && s.users[r.value.id] == r.value && selects(r.value)
    ensures r.Some? ==> forall k :: k in s.users && selects(s.users[k]) ==> r.value.id <= k
  {
    match FirstWhere(s.users, selects, 0, s.nextId)
    case None => None
    case Some(k) => Some(s.users[k])
  }

  /** `WHERE email = ? ... First`: the user with this email and the smallest
      primary key, if there is one. */
  function FindByEmail(s: Store, email: string): (r: Option<User>)
    requires s.Valid()
    ensures r.Some? <==> EmailTaken(s, email)
    ensures r.Some? ==> r.value.id in s.users && s.users[r.value.id] == r.value && r.value.email == email
    ensures r.Some? ==> forall k :: k in s.users && s.users[k].email == email ==> r.value.id <= k
  {
    FindFirst(s, (u: User) => u.email == email)
  }

  /** `after` is `before` with exactly the one new record `u` added. */
  predicate Added(before: Store, after: Store, u: User) {
    && u.id !in before.users
    && after.users.Keys == before.users.Keys + {u.id}
    && after.users[u.id] == u
    && forall k :: k in before.users ==> after.users[k] == before.users[k]
  }

  /** INSERT: the record takes the next value of the id sequence. */
  function Insert(s: Store, u: User): (r: Store)
    requires s.Valid() && u.id == s.nextId
    ensures r.Valid()
    ensures Added(s, r, u)
  {
    Store(s.users[u.id := u], s.nextId + 1)
  }

  /** The keys in [k, hi) that hold a user, in ascending order. */
  function IdsFrom(users: map<nat, User>, k: nat, hi: nat): (ids: seq<nat>)
    decreases hi - k
    ensures forall i :: 0 <= i < |ids| ==> ids[i] in users && k <= ids[i] < hi
  {
    if k >= hi then []
    else if k in users then [k] + IdsFrom(users, k + 1, hi)
    else IdsFrom(users, k + 1, hi)
  }

  predicate Increasing(s: seq<nat>) {
    forall i, j :: 0 <= i < j < |s| ==> s[i] < s[j]
  }

  lemma {:induction false} IdsFromIncreasing(users: map<nat, User>, k: nat, hi: nat)
    decreases hi - k
    ensures Increasing(IdsFrom(users, k, hi))
  {
    if k < hi {
      IdsFromIncreasing(users, k + 1, hi);
      var rest := IdsFrom(users, k + 1, hi);
      if k in users {
        var ids := [k] + rest;
        assert IdsFrom(users, k, hi) == ids;
        forall i, j | 0 <= i < j < |ids|
          ensures ids[i] < ids[j]
        {
          assert ids[j] == rest[j - 1];
          if i > 0 {
            assert ids[i] == rest[i - 1];
          }
        }
      }
    }
  }

  lemma {:induction false} IdsFromComplete(users: map<nat, User>, k: nat, hi: nat)
    decreases hi - k
    ensures forall j :: j in users && k <= j < hi ==> j in IdsFrom(users, k, hi)
  {
    if k < hi {
      IdsFromComplete(users, k + 1, hi);
    }
  }

  /** The set of elements of a sequence. */
  function Elems(s: seq<nat>): (r: set<nat>)
    ensures forall x :: x in r <==> x in s
  {
    if |s| == 0 then {} else {s[0]} + Elems(s[1..])
  }

  /** A strictly increasing sequence repeats nothing, so it is as long as
      its set of elements is large. */
  lemma {:induction false} IncreasingCard(s: seq<nat>)
    requires Increasing(s)
    ensures |Elems(s)| == |s|
  {
    if |s| > 0 {
      IncreasingCard(s[1..]);
      assert s[0] !in s[1..];
      assert s[0] !in Elems(s[1..]);
    }
  }

  /** `ORDER BY id`: every stored key once, in ascending order. */
  function OrderedIds(s: Store): (ids: seq<nat>)
    requires s.Valid()
    ensures |ids| == |s.users|
    ensures forall i :: 0 <= i < |ids| ==> ids[i] in s.users
    ensures forall i, j :: 0 <= i < j < |ids| ==> ids[i] < ids[j]
    ensures forall k :: k in s.users ==> k in ids
  {
    var ids := IdsFrom(s.users, 0, s.nextId);
    IdsFromIncreasing(s.users, 0, s.nextId);
    IdsFromComplete(s.users, 0, s.nextId);
    IncreasingCard(ids);
    assert Elems(ids) == s.users.Keys;
    ids
  }
}
