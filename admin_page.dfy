/**
 * The user list of the admin dashboard (app/admin/page.tsx and its copy
 * biera/app/admin/page.tsx, whose logic is the same): building the list from
 * the `users` documents, promoting a customer to designer, and the badge and
 * button each row shows.
 *
 * A list entry is what `{ id: doc.id, ...doc.data() }` builds: the document's
 * fields by name, with `id` the document id unless the data has an `id` field
 * of its own, which the spread lets win.
 */
module AdminUsers {
  import opened ChatTypes

  /** A user entry: its fields by name. */
  type UserEntry = map<string, string>

  /** A document of the `users` collection: its id and its data. */
  datatype UserDoc = UserDoc(id: string, data: map<string, string>)

  const DesignerRole: string := "designer"

  datatype BadgeVariant = Destructive | Default | Secondary

  /** `{ id: doc.id, ...doc.data() }` */
  function EntryOf(d: UserDoc): (r: UserEntry)
    ensures "id" in r
    ensures r["id"] == (if "id" in d.data then d.data["id"] else d.id)
    ensures r.Keys == d.data.Keys + {"id"}
    ensures forall f | f in d.data :: r[f] == d.data[f]
  {
    map["id" := d.id] + d.data
  }

  /** `u.id === userId` */
  predicate HasId(u: UserEntry, userId: string) {
    "id" in u && u["id"] == userId
  }

  /** `u.role === r`; a missing role equals nothing. */
  predicate HasRole(u: UserEntry, r: string) {
    "role" in u && u["role"] == r
  }

  /**
   * The new list of `promoteToDesigner`. Length and order are kept: an entry
   * with the id has the designer role and every other field as before, and
   * every other entry is unchanged.
   */
  function PromoteToDesigner(users: seq<UserEntry>, userId: string): (r: seq<UserEntry>)
    ensures |r| == |users|
    ensures forall k | 0 <= k < |users| && HasId(users[k], userId) ::
              HasRole(r[k], DesignerRole) && r[k].Keys == users[k].Keys + {"role"}
              && forall f | f in users[k] && f != "role" :: r[k][f] == users[k][f]
    ensures forall k | 0 <= k < |users| && !HasId(users[k], userId) :: r[k] == users[k]
  {
    seq(|users|, k requires 0 <= k < |users| => if HasId(users[k], userId) then users[k]["role" := DesignerRole] else users[k])
  }

  /** `variant={...}` of the role badge. */
  function Badge(u: UserEntry): BadgeVariant {
    if HasRole(u, "admin") then Destructive
    else if HasRole(u, DesignerRole) then Default
    else Secondary
  }

  /** `user.role === "customer" && <Button ...>` */
  predicate ShowsPromote(u: UserEntry) {
    HasRole(u, "customer")
  }

  class AdminPage {
    var users: seq<UserEntry>
    var loading: bool

    constructor()
      ensures users == [] && loading
    {
      users := [];
      loading := true;
    }

    /**
     * `fetchUsers`. `snapshot` is the result of `getDocs`, or `None` when it
     * throws, in which case the list is left as it was.
     */
    method FetchUsers(snapshot: Option<seq<UserDoc>>)
      modifies this
      ensures !loading
      ensures snapshot.None? ==> users == old(users)
      ensures snapshot.Some? ==> |users| == |snapshot.value|
      ensures snapshot.Some? ==> forall k | 0 <= k < |users| :: users[k] == EntryOf(snapshot.value[k])
    {
      if snapshot.Some? {
        var docs := snapshot.value;
        var usersData: seq<UserEntry> := [];
        var i := 0;
        while i < |docs|
          invariant 0 <= i <= |docs|
          invariant |usersData| == i
          invariant forall k | 0 <= k < i :: usersData[k] == EntryOf(docs[k])
        {
          usersData := usersData + [map["id" := docs[i].id] + docs[i].data];
          i := i + 1;
        }
        users := usersData;
      }
      loading := false;
    }

    /**
     * `promoteToDesigner`. `updateFails` says whether `updateDoc` throws; the
     * list is replaced only after the update succeeded.
     */
    method Promote(userId: string, updateFails: bool)
      modifies this
      ensures loading == old(loading)
      ensures users == if updateFails then old(users) else PromoteToDesigner(old(users), userId)
    {
      if !updateFails {
        users := PromoteToDesigner(users, userId);
      }
    }
  }

  // ---- properties of the promotion ----

  /** The entries' ids are untouched, so promoting twice is promoting once. */
  lemma PromoteIdempotent(users: seq<UserEntry>, userId: string)
    ensures PromoteToDesigner(PromoteToDesigner(users, userId), userId) == PromoteToDesigner(users, userId)
  {
    var once := PromoteToDesigner(users, userId);
    var twice := PromoteToDesigner(once, userId);
    forall k | 0 <= k < |users| ensures twice[k] == once[k] {
      if HasId(users[k], userId) {
        assert once[k]["id"] == users[k]["id"];
        assert once[k]["role" := DesignerRole] == once[k];
      }
    }
  }

  /** After a promotion the promoted entries show the designer badge and no promote button. */
  lemma PromotedRow(users: seq<UserEntry>, userId: string, k: int)
    requires 0 <= k < |users| && HasId(users[k], userId)
    ensures Badge(PromoteToDesigner(users, userId)[k]) == Default
    ensures !ShowsPromote(PromoteToDesigner(users, userId)[k])
  {
    assert HasRole(PromoteToDesigner(users, userId)[k], DesignerRole);
  }

  /** The badge by role, and the button only for customers, who get the secondary badge. */
  lemma RowRules(u: UserEntry)
    ensures Badge(u) == Destructive <==> HasRole(u, "admin")
    ensures Badge(u) == Default <==> HasRole(u, DesignerRole)
    ensures Badge(u) == Secondary <==> !HasRole(u, "admin") && !HasRole(u, DesignerRole)
    ensures ShowsPromote(u) ==> Badge(u) == Secondary
  {
  }
}
