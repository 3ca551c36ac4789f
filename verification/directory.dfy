/**
 The users collection of the document database: a sequence of profile records
 in the order the database lists them. A query `Query.equal(field, [value])`
 followed by `documents[0]` picks the first record whose field equals the value.
 A created document is assumed to be listed after the existing ones; the
 queries pass no ordering, so the real order is the database's default.
 */
module Directory {
  import opened Optional

  const DefaultAvatar: string := "/assets/images/avatar.png"

  datatype UserRecord = UserRecord(fullName: string, email: string, avatar: string, accountId: string)

  /** The two fields the actions query on. */
  datatype Field = Email | AccountId

  function Key(r: UserRecord, f: Field): string {
    match f
    case Email => r.email
    case AccountId => r.accountId
  }

  /** Index i holds the first record whose field f equals v. */
  ghost predicate IsFirstMatch(dir: seq<UserRecord>, f: Field, v: string, i: int) {
    && 0 <= i < |dir|
    && Key(dir[i], f) == v
    && forall j :: 0 <= j < i ==> Key(dir[j], f) != v
  }

  ghost predicate NoMatch(dir: seq<UserRecord>, f: Field, v: string) {
    forall j :: 0 <= j < |dir| ==> Key(dir[j], f) != v
  }

  function FirstIndex(dir: seq<UserRecord>, f: Field, v: string): (r: Option<nat>)
    ensures r.Some? ==> IsFirstMatch(dir, f, v, r.value)
    ensures r.None? <==> NoMatch(dir, f, v)
  {
    if |dir| == 0 then None
    else if Key(dir[0], f) == v then Some(0)
    else
      match FirstIndex(dir[1..], f, v)
      case None => None
      case Some(i) => Some(i + 1)
  }

  /** `listDocuments` with one equality filter, then `total > 0 ? documents[0] : null`. */
  function Lookup(dir: seq<UserRecord>, f: Field, v: string): (r: Option<UserRecord>)
    ensures r.None? <==> NoMatch(dir, f, v)
    ensures r.Some? ==> exists i :: IsFirstMatch(dir, f, v, i) && r.value == dir[i]
  {
    match FirstIndex(dir, f, v)
    case None => None
    case Some(i) => Some(dir[i])
  }

  /** Appending a record never changes the answer for a value already present,
      and makes the new record the answer for its own value when it was absent. */
  lemma {:induction false} LookupAfterAppend(dir: seq<UserRecord>, rec: UserRecord, f: Field, v: string)
    ensures !NoMatch(dir, f, v) ==> Lookup(dir + [rec], f, v) == Lookup(dir, f, v)
    ensures NoMatch(dir, f, v) && Key(rec, f) == v ==> Lookup(dir + [rec], f, v) == Some(rec)
    ensures NoMatch(dir, f, v) && Key(rec, f) != v ==> Lookup(dir + [rec], f, v) == None
  {
    var d := dir + [rec];
    if !NoMatch(dir, f, v) {
      var i := FirstIndex(dir, f, v).value;
      assert IsFirstMatch(d, f, v, i) by {
        forall j | 0 <= j < i ensures Key(d[j], f) != v {
          assert d[j] == dir[j];
        }
      }
      FirstMatchUnique(d, f, v, i, FirstIndex(d, f, v).value);
    } else if Key(rec, f) == v {
      assert IsFirstMatch(d, f, v, |dir|) by {
        forall j | 0 <= j < |dir| ensures Key(d[j], f) != v {
          assert d[j] == dir[j];
        }
      }
      FirstMatchUnique(d, f, v, |dir|, FirstIndex(d, f, v).value);
    } else {
      forall j | 0 <= j < |d| ensures Key(d[j], f) != v {
        if j < |dir| { assert d[j] == dir[j]; }
      }
    }
  }

  lemma FirstMatchUnique(dir: seq<UserRecord>, f: Field, v: string, i: int, k: int)
    requires IsFirstMatch(dir, f, v, i) && IsFirstMatch(dir, f, v, k)
    ensures i == k
  {
  }

  /** No two records share an email address. */
  ghost predicate UniqueEmails(dir: seq<UserRecord>) {
    forall i, j :: 0 <= i < j < |dir| ==> dir[i].email != dir[j].email
  }
}
