/**
 * The create-or-update rule that app/crud/patient.py, doctor.py and
 * employee.py each apply to their own profile table: look the row up by the
 * path's user id; if it exists, `setattr` each explicitly set field on it;
 * otherwise build a new row keyed by that user id from the set fields.
 */
module Profiles {
  import opened Common
  import opened Models

  /**
   * The row an upsert leaves: the existing row with the set fields
   * overwritten, or a new row keyed by `userId` holding only the set fields.
   */
  function Upserted<C>(existing: Option<Profile<C>>, userId: int, fields: map<C, Value>): Profile<C>
  {
    match existing
    case Some(p) => p.(attrs := p.attrs + fields)
    case None => Profile(userId, fields)
  }

  /**
   * The `for key, value in data_dict.items(): setattr(profile, key, value)`
   * loop, over the attribute values of one row.
   */
  method SetAttrs<C>(attrs: map<C, Value>, fields: map<C, Value>) returns (r: map<C, Value>)
    ensures r.Keys == attrs.Keys + fields.Keys
    ensures forall c :: c in fields ==> r[c] == fields[c]
    ensures forall c :: c in attrs && c !in fields ==> r[c] == attrs[c]
  {
    r := attrs;
    var pending := fields.Keys;
    while pending != {}
      invariant pending <= fields.Keys
      invariant r.Keys == attrs.Keys + (fields.Keys - pending)
      invariant forall c :: c in fields && c !in pending ==> r[c] == fields[c]
      invariant forall c :: c in attrs && (c !in fields || c in pending) ==> r[c] == attrs[c]
      decreases pending
    {
      ghost var member := NonEmptyHasMember(pending);
      var c :| c in pending;
      r := r[c := fields[c]];
      pending := pending - {c};
    }
  }

  /** The lookup-then-merge-or-create step on one profile table. */
  method UpsertRow<C>(rows: map<int, Profile<C>>, userId: int, fields: map<C, Value>) returns (p: Profile<C>)
    ensures p == Upserted(if userId in rows then Some(rows[userId]) else None, userId, fields)
  {
    if userId in rows {
      var existing := rows[userId];
      var attrs := SetAttrs(existing.attrs, fields);
      assert attrs == existing.attrs + fields;
      p := existing.(attrs := attrs);
    } else {
      p := Profile(userId, fields);
    }
  }

  /** The row is keyed by the path's user id (an existing row already is). */
  lemma UpsertKeyedByPath<C>(existing: Option<Profile<C>>, userId: int, fields: map<C, Value>)
    requires existing.Some? ==> existing.value.id == userId
    ensures Upserted(existing, userId, fields).id == userId
  {
  }

  /**
   * Field-level merge: a set field takes its new value (NULL included, since
   * only unset fields are left out); every other column keeps its old value,
   * which for a new row is NULL.
   */
  lemma UpsertColumns<C>(existing: Option<Profile<C>>, userId: int, fields: map<C, Value>, c: C)
    ensures Column(Upserted(existing, userId, fields), c) ==
      if c in fields then fields[c]
      else if existing.Some? then Column(existing.value, c)
      else Null
  {
  }

  /** Two upserts in a row are one upsert with both field sets, the later winning. */
  lemma UpsertsCompose<C>(existing: Option<Profile<C>>, userId: int, first: map<C, Value>, second: map<C, Value>)
    ensures Upserted(Some(Upserted(existing, userId, first)), userId, second)
         == Upserted(existing, userId, first + second)
  {
    match existing
    case Some(p) =>
      assert p.attrs + first + second == p.attrs + (first + second);
    case None =>
  }

  /** With disjoint field sets, both updates are present after two upserts. */
  lemma DisjointUpsertsBothApply<C>(existing: Option<Profile<C>>, userId: int,
                                    first: map<C, Value>, second: map<C, Value>, c: C)
    requires first.Keys !! second.Keys
    ensures var p := Upserted(Some(Upserted(existing, userId, first)), userId, second);
      && (c in first ==> Column(p, c) == first[c])
      && (c in second ==> Column(p, c) == second[c])
  {
    UpsertsCompose(existing, userId, first, second);
    UpsertColumns(existing, userId, first + second, c);
  }

  /** Writing `p` at `key` keeps a UNIQUE column unique unless it clashes. */
  lemma WriteKeepsUnique<C>(rows: map<int, Profile<C>>, key: int, p: Profile<C>, c: C)
    requires UniqueColumn(rows, c)
    requires !Clashes(rows, key, p, c)
    ensures UniqueColumn(rows[key := p], c)
  {
  }

  /** Deleting a row keeps a UNIQUE column unique. */
  lemma RemoveKeepsUnique<C>(rows: map<int, Profile<C>>, key: int, c: C)
    requires UniqueColumn(rows, c)
    ensures UniqueColumn(rows - {key}, c)
  {
  }
}
