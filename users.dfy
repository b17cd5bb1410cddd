/**
 * The `users` table: the `User` record, its JSON form, and the table with
 * the unique indexes its tags declare (uuid, email, phone, device id,
 * username). Rows are kept in primary-key order, so "the first match" of a
 * query is the match with the lowest id, as `First` returns it.
 */
module Users {
  import opened Wrappers

  datatype User = User(
    id: nat,
    uuid: string,
    email: Option<string>,
    phone: Option<string>,
    deviceId: Option<string>,
    pinHash: string,
    biometricsEnabled: bool,
    isGuest: bool,
    username: string,
    profileImage: string)

  /** The JSON form of a user: every column except the pin hash, plus `has_pin` as the handler set it. */
  datatype UserView = UserView(
    id: nat,
    uuid: string,
    email: Option<string>,
    phone: Option<string>,
    deviceId: Option<string>,
    biometricsEnabled: bool,
    isGuest: bool,
    username: string,
    profileImage: string,
    hasPin: bool)

  /** The JSON form with a given `has_pin`; `has_pin` is not a column, so it is whatever the handler set. */
  function ViewWith(u: User, hasPin: bool): (v: UserView)
    ensures v.id == u.id && v.uuid == u.uuid && v.username == u.username && v.hasPin == hasPin
  {
    UserView(u.id, u.uuid, u.email, u.phone, u.deviceId, u.biometricsEnabled, u.isGuest,
             u.username, u.profileImage, hasPin)
  }

  /** The JSON form in the auth answers, which set `HasPin = PinHash != ""` first. */
  function AuthView(u: User): (v: UserView)
    ensures v.hasPin <==> u.pinHash != ""
  {
    ViewWith(u, u.pinHash != "")
  }

  /** The pin hash itself never reaches the JSON form: users that differ only in a non-empty hash look the same. */
  lemma ViewHidesPinHash(u: User, h1: string, h2: string)
    requires h1 != "" && h2 != ""
    ensures AuthView(u.(pinHash := h1)) == AuthView(u.(pinHash := h2))
    ensures ViewWith(u.(pinHash := h1), false) == ViewWith(u.(pinHash := h2), false)
  {
  }

  /** Two rows that a unique index (or the primary key) forbids together; a missing value never clashes. */
  predicate Clash(a: User, b: User) {
    || a.id == b.id
    || a.uuid == b.uuid
    || a.username == b.username
    || (a.email.Some? && a.email == b.email)
    || (a.phone.Some? && a.phone == b.phone)
    || (a.deviceId.Some? && a.deviceId == b.deviceId)
  }

  /** No two rows clash. */
  predicate Unique(rows: seq<User>) {
    forall i, j :: 0 <= i < j < |rows| ==> !Clash(rows[i], rows[j])
  }

  /** The row `u` may join `rows` without breaking an index. */
  predicate Admits(rows: seq<User>, u: User) {
    forall k :: 0 <= k < |rows| ==> !Clash(rows[k], u)
  }

  /** The rows are in ascending, positive id order, all below the next id to hand out. */
  predicate Ordered(rows: seq<User>, nextId: nat) {
    && (forall k :: 0 <= k < |rows| ==> 0 < rows[k].id < nextId)
    && (forall i, j :: 0 <= i < j < |rows| ==> rows[i].id < rows[j].id)
  }

  /** The table contents and the id the next insert receives. */
  datatype Store = Store(rows: seq<User>, nextId: nat)

  predicate ValidStore(s: Store) {
    s.nextId >= 1 && Unique(s.rows) && Ordered(s.rows, s.nextId)
  }

  /** `DB.Create`: the user gets the next id and is appended, unless an index forbids it. */
  function Insert(s: Store, u: User): (r: (Store, Option<User>))
    ensures r.1.Some? ==> r.1.value == u.(id := s.nextId) && r.0 == Store(s.rows + [r.1.value], s.nextId + 1)
    ensures r.1.None? ==> r.0 == s
  {
    var row := u.(id := s.nextId);
    if Admits(s.rows, row) then (Store(s.rows + [row], s.nextId + 1), Some(row)) else (s, None)
  }

  /** The rows with the row of `u`'s id replaced by `u`. */
  function Replace(rows: seq<User>, u: User): (r: seq<User>)
    ensures |r| == |rows|
    ensures forall k :: 0 <= k < |rows| ==> r[k] == if rows[k].id == u.id then u else rows[k]
  {
    seq(|rows|, k requires 0 <= k < |rows| => if rows[k].id == u.id then u else rows[k])
  }

  /** `u` clashes with no row other than its own. */
  predicate AdmitsUpdate(rows: seq<User>, u: User) {
    forall k :: 0 <= k < |rows| && rows[k].id != u.id ==> !Clash(rows[k], u)
  }

  /** `DB.Save` of a user read from the table: every column of its row is overwritten, unless an index forbids it. */
  function Update(s: Store, u: User): (r: (Store, bool))
    ensures r.1 ==> r.0 == Store(Replace(s.rows, u), s.nextId)
    ensures !r.1 ==> r.0 == s
  {
    if AdmitsUpdate(s.rows, u) then (Store(Replace(s.rows, u), s.nextId), true) else (s, false)
  }

  /** An insert keeps the table valid. */
  lemma InsertKeepsValid(s: Store, u: User)
    requires ValidStore(s)
    ensures ValidStore(Insert(s, u).0)
  {
    var row := u.(id := s.nextId);
    if Admits(s.rows, row) {
      var rows := s.rows + [row];
      forall i, j | 0 <= i < j < |rows|
        ensures !Clash(rows[i], rows[j])
      {
        if j == |s.rows| {
          assert !Clash(s.rows[i], row);
        } else {
          assert rows[i] == s.rows[i] && rows[j] == s.rows[j];
        }
      }
    }
  }

  /** An update of an existing row keeps the table valid and changes no other row. */
  lemma UpdateKeepsValid(s: Store, u: User)
    requires ValidStore(s)
    requires exists k :: 0 <= k < |s.rows| && s.rows[k].id == u.id
    ensures ValidStore(Update(s, u).0)
    ensures forall k :: 0 <= k < |s.rows| && s.rows[k].id != u.id ==> Update(s, u).0.rows[k] == s.rows[k]
  {
    if AdmitsUpdate(s.rows, u) {
      var rows := Replace(s.rows, u);
      forall i, j | 0 <= i < j < |rows|
        ensures !Clash(rows[i], rows[j])
      {
        if s.rows[i].id == u.id {
          assert s.rows[j].id != u.id;
          assert !Clash(s.rows[j], u);
        } else if s.rows[j].id == u.id {
          assert !Clash(s.rows[i], u);
        }
      }
    }
  }

  /** The `WHERE` clauses the handlers use. */
  datatype Query =
    | UuidIs(uuid: string)
    | EmailIs(email: string)
    | PhoneIs(phone: string)
    | ContactIs(identifier: string)       // email = ? OR phone = ?
    | GuestWithUuid(guestUuid: string)    // uuid = ? AND is_guest = true
    | GuestWithDevice(device: string)     // device_id = ? AND is_guest = true
    | IdIs(rowId: nat)
    | UsernameElsewhere(name: string, except: nat)  // username = ? AND id != ?

  predicate Matches(q: Query, u: User) {
    match q
    case UuidIs(x) => u.uuid == x
    case EmailIs(x) => u.email == Some(x)
    case PhoneIs(x) => u.phone == Some(x)
    case ContactIs(x) => u.email == Some(x) || u.phone == Some(x)
    case GuestWithUuid(x) => u.uuid == x && u.isGuest
    case GuestWithDevice(x) => u.deviceId == Some(x) && u.isGuest
    case IdIs(x) => u.id == x
    case UsernameElsewhere(name, except) => u.username == name && u.id != except
  }

  /** `First`: the matching row with the lowest id. */
  function First(rows: seq<User>, q: Query): (r: Option<User>)
    ensures r.Some? ==> r.value in rows && Matches(q, r.value)
    ensures r.None? ==> forall k :: 0 <= k < |rows| ==> !Matches(q, rows[k])
  {
    if rows == [] then None
    else if Matches(q, rows[0]) then Some(rows[0])
    else First(rows[1..], q)
  }

  /** `First` finds the earliest matching row: no row before it matches. */
  lemma {:induction false} FirstIsEarliest(rows: seq<User>, q: Query)
    requires First(rows, q).Some?
    ensures exists k :: 0 <= k < |rows| && rows[k] == First(rows, q).value && forall i :: 0 <= i < k ==> !Matches(q, rows[i])
  {
    if !Matches(q, rows[0]) {
      FirstIsEarliest(rows[1..], q);
      var k :| 0 <= k < |rows[1..]| && rows[1..][k] == First(rows[1..], q).value
        && forall i :: 0 <= i < k ==> !Matches(q, rows[1..][i]);
      assert rows[k + 1] == First(rows, q).value;
      assert forall i :: 0 <= i < k + 1 ==> !Matches(q, rows[i]) by {
        forall i | 0 <= i < k + 1
          ensures !Matches(q, rows[i])
        {
          if i > 0 {
            assert rows[i] == rows[1..][i - 1];
          }
        }
      }
    } else {
      assert rows[0] == First(rows, q).value;
    }
  }

  /** In a table kept in primary-key order, `First` finds the match with the lowest id. */
  lemma FirstHasLowestId(s: Store, q: Query)
    requires ValidStore(s) && First(s.rows, q).Some?
    ensures forall k :: 0 <= k < |s.rows| && Matches(q, s.rows[k]) ==> First(s.rows, q).value.id <= s.rows[k].id
  {
    var u := First(s.rows, q).value;
    FirstIsEarliest(s.rows, q);
    var j :| 0 <= j < |s.rows| && s.rows[j] == u && forall i :: 0 <= i < j ==> !Matches(q, s.rows[i]);
    forall k | 0 <= k < |s.rows| && Matches(q, s.rows[k])
      ensures u.id <= s.rows[k].id
    {
      if j < k {
        assert s.rows[j].id < s.rows[k].id;
      }
    }
  }

  /** A query that only one row matches finds that row. */
  lemma {:induction false} FirstFindsOnly(rows: seq<User>, q: Query, k: nat)
    requires k < |rows| && Matches(q, rows[k])
    requires forall i :: 0 <= i < |rows| && Matches(q, rows[i]) ==> i == k
    ensures First(rows, q) == Some(rows[k])
  {
    if k > 0 {
      FirstFindsOnly(rows[1..], q, k - 1);
    }
  }

  /** In a valid table the uuid index finds the one row that holds it. */
  lemma UuidFindsRow(rows: seq<User>, k: nat)
    requires Unique(rows) && k < |rows|
    ensures First(rows, UuidIs(rows[k].uuid)) == Some(rows[k])
  {
    forall i | 0 <= i < |rows| && i != k
      ensures !Matches(UuidIs(rows[k].uuid), rows[i])
    {
      if i < k {
        assert !Clash(rows[i], rows[k]);
      } else {
        assert !Clash(rows[k], rows[i]);
      }
    }
    FirstFindsOnly(rows, UuidIs(rows[k].uuid), k);
  }

  /** In a valid table an email or a phone lookup finds the one row that holds it. */
  lemma ContactFindsRow(rows: seq<User>, q: Query, k: nat)
    requires Unique(rows) && k < |rows| && (q.EmailIs? || q.PhoneIs?) && Matches(q, rows[k])
    ensures First(rows, q) == Some(rows[k])
  {
    forall i | 0 <= i < |rows| && i != k
      ensures !Matches(q, rows[i])
    {
      if i < k {
        assert !Clash(rows[i], rows[k]);
      } else {
        assert !Clash(rows[k], rows[i]);
      }
    }
    FirstFindsOnly(rows, q, k);
  }

  /** The table, changed in place by `Create` and `Save`. */
  class UserTable {
    var rows: seq<User>
    var nextId: nat

    function State(): Store
      reads this
    {
      Store(rows, nextId)
    }

    predicate Valid()
      reads this
    {
      ValidStore(State())
    }

    constructor ()
      ensures rows == [] && nextId == 1 && Valid()
    {
      rows := [];
      nextId := 1;
    }

    /** `DB.Create(&user)`: on success the stored row, with its new id. */
    method Create(u: User) returns (created: Option<User>)
      requires Valid()
      modifies this
      ensures Valid()
      ensures (State(), created) == Insert(old(State()), u)
    {
      InsertKeepsValid(State(), u);
      var row := u.(id := nextId);
      if Admits(rows, row) {
        rows := rows + [row];
        nextId := nextId + 1;
        return Some(row);
      }
      return None;
    }

    /** `DB.Save(&user)` for a user read from the table: false when an index forbids the new values. */
    method Save(u: User) returns (saved: bool)
      requires Valid()
      requires exists k :: 0 <= k < |rows| && rows[k].id == u.id
      modifies this
      ensures Valid()
      ensures (State(), saved) == Update(old(State()), u)
    {
      UpdateKeepsValid(State(), u);
      if AdmitsUpdate(rows, u) {
        rows := Replace(rows, u);
        return true;
      }
      return false;
    }
  }
}
