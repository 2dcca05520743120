/** The `AdminSettings` page: the brand checkboxes of the user form and the
    save handler that edits or adds a user in the page's list. */
module AdminSettings {

  import opened Wrappers
  import opened Schema
  import opened Seqs
  import NumText

  datatype SystemUser = SystemUser(
    id: string,
    name: string,
    email: string,
    role: Role,
    brandIds: seq<BrandId>,
    isActive: bool,
    lastLogin: string)

  /** The form for a new user: no id yet, an active agent without brands. */
  const BlankUser: SystemUser := SystemUser("", "", "", Agent, [], true, "-")

  /** `toggleBrand(b)`: a ticked brand is removed (every copy of it); an
      unticked one is added at the end. */
  function ToggleBrand(brands: seq<BrandId>, b: BrandId): (r: seq<BrandId>)
    ensures b in r <==> b !in brands
    ensures forall x :: x != b ==> (x in r <==> x in brands)
    ensures b !in brands ==> r == brands + [b]
    ensures b in brands ==> SubSeq(r, brands)
  {
    if b in brands then
      FilterIsSubSeq(brands, (x: BrandId) => x != b);
      Filter(brands, (x: BrandId) => x != b)
    else brands + [b]
  }

  /** Ticking a box twice restores which brands are ticked; starting from an
      unticked box it restores the list exactly. */
  lemma ToggleTwiceRestores(brands: seq<BrandId>, b: BrandId)
    ensures forall x :: x in ToggleBrand(ToggleBrand(brands, b), b) <==> x in brands
    ensures b !in brands ==> ToggleBrand(ToggleBrand(brands, b), b) == brands
  {
    if b !in brands {
      FilterKeepsAll(brands, (x: BrandId) => x != b);
      FilterAppendDropped(brands, b);
    }
  }

  /** Dropping `b` from `xs + [b]` gives `xs` filtered. */
  lemma {:induction false} FilterAppendDropped(xs: seq<BrandId>, b: BrandId)
    ensures Filter(xs + [b], (x: BrandId) => x != b) == Filter(xs, (x: BrandId) => x != b)
    decreases |xs|
  {
    if |xs| == 0 {
      assert xs + [b] == [b];
      assert [b][1..] == [];
    } else {
      FilterAppendDropped(xs[1..], b);
      assert (xs + [b])[1..] == xs[1..] + [b];
    }
  }

  /** `handleSaveUser`: a user with an id replaces every user with that id;
      one without is appended with an id made from the clock `now` and the
      last login `Never`. */
  function SaveUser(users: seq<SystemUser>, u: SystemUser, now: nat): (r: seq<SystemUser>)
    ensures u.id != "" ==> |r| == |users|
    ensures u.id != "" ==> forall i :: 0 <= i < |users| ==>
      r[i] == (if users[i].id == u.id then u else users[i])
    ensures u.id == "" ==> |r| == |users| + 1 && r[..|users|] == users
    ensures u.id == "" ==> r[|users|] == u.(id := NumText.DecimalString(now), lastLogin := "Never")
  {
    if u.id != "" then
      seq(|users|, i requires 0 <= i < |users| => if users[i].id == u.id then u else users[i])
    else
      users + [u.(id := NumText.DecimalString(now), lastLogin := "Never")]
  }

  /** Saving an edited user touches nobody else, and saving it again changes
      nothing more. */
  lemma SaveEditIsIdempotent(users: seq<SystemUser>, u: SystemUser, now: nat, later: nat)
    requires u.id != ""
    ensures forall i :: 0 <= i < |users| && users[i].id != u.id ==> SaveUser(users, u, now)[i] == users[i]
    ensures SaveUser(SaveUser(users, u, now), u, later) == SaveUser(users, u, now)
  {
    var once := SaveUser(users, u, now);
    var twice := SaveUser(once, u, later);
    assert forall i :: 0 <= i < |users| ==> twice[i] == once[i];
  }

  /** A new user gets a non-empty id that reads back as the clock value, so
      a later save of the same user edits it instead of adding another. */
  lemma NewUserCanBeEdited(users: seq<SystemUser>, u: SystemUser, now: nat, edit: SystemUser, later: nat)
    requires u.id == ""
    requires forall v :: v in users ==> v.id != NumText.DecimalString(now)
    ensures var added := SaveUser(users, u, now)[|users|];
      && added.id != ""
      && NumText.ParseInt(added.id) == Some(now)
      && (edit.id == added.id ==>
            SaveUser(SaveUser(users, u, now), edit, later) == users + [edit])
  {
    NumText.ParseIntDecimalRoundTrip(now);
    if edit.id == NumText.DecimalString(now) {
      EditAppendedUser(users, SaveUser(users, u, now)[|users|], edit, later);
      assert SaveUser(users, u, now) == users + [SaveUser(users, u, now)[|users|]];
    }
  }

  /** Editing the last user of a list, whose id no earlier user has, replaces
      that user alone. */
  lemma EditAppendedUser(users: seq<SystemUser>, added: SystemUser, edit: SystemUser, later: nat)
    requires edit.id != "" && edit.id == added.id
    requires forall v :: v in users ==> v.id != edit.id
    ensures SaveUser(users + [added], edit, later) == users + [edit]
  {
    var r := SaveUser(users + [added], edit, later);
    forall i | 0 <= i < |users| ensures r[i] == users[i] {
      assert users[i] in users;
      assert (users + [added])[i] == users[i];
    }
  }
}
