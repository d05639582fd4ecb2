// The list idioms the components share: `users.find(u => u.id === id)`,
// `x?.fullName || fallback`, and `list.filter(pred)`.
module Lookup {
  import opened Wrappers
  import opened Types

  /** `users.find(u => u.id === id)`: the first user with that id. */
  function FindUser(users: seq<User>, id: string): (r: Option<User>)
    ensures r.None? <==> forall i :: 0 <= i < |users| ==> users[i].id != id
    ensures r.Some? ==> exists i :: 0 <= i < |users| && users[i] == r.value && r.value.id == id
                                    && forall j :: 0 <= j < i ==> users[j].id != id
  {
    if |users| == 0 then None
    else if users[0].id == id then Some(users[0])
    else
      FindUser(users[1..], id)
  }

  /** The same lookup for an optional id: an absent id matches nobody. */
  function FindUserByOptionalId(users: seq<User>, id: Option<string>): (r: Option<User>)
    ensures id.None? ==> r.None?
    ensures id.Some? ==> r == FindUser(users, id.value)
  {
    if id.Some? then FindUser(users, id.value) else None
  }

  /** The user was found and has a non-empty full name. */
  predicate HasShownName(u: Option<User>)
  {
    u.Some? && u.value.fullName.Some? && u.value.fullName.value != ""
  }

  /** `user?.fullName`, shown only when it is a non-empty string. */
  function ShownName(u: Option<User>): Option<string>
  {
    if HasShownName(u) then u.value.fullName
    else None
  }

  /** `users.find(u => u.id === id)?.fullName || fallback`. */
  function DisplayName(users: seq<User>, id: string, fallback: string): (name: string)
    ensures name == fallback || exists u :: u in users && u.id == id && u.fullName == Some(name)
    ensures (forall u :: u in users ==> u.id != id) ==> name == fallback
    ensures fallback != "" ==> name != ""
    ensures HasShownName(FindUser(users, id)) ==> name == FindUser(users, id).value.fullName.value
    ensures !HasShownName(FindUser(users, id)) ==> name == fallback
  {
    var n := ShownName(FindUser(users, id));
    if n.Some? then n.value else fallback
  }

  /** `s.filter(keep)`. */
  function Filter<T(!new)>(s: seq<T>, keep: T -> bool): (r: seq<T>)
    ensures |r| <= |s|
    ensures forall x :: x in r ==> x in s && keep(x)
    ensures forall x :: keep(x) ==> multiset(r)[x] == multiset(s)[x]
  {
    if |s| == 0 then []
    else
      var rest := Filter(s[1..], keep);
      assert s == [s[0]] + s[1..];
      if keep(s[0]) then [s[0]] + rest else rest
  }

  /** Filtering keeps order: it distributes over concatenation. */
  lemma {:induction false} FilterAppend<T(!new)>(a: seq<T>, b: seq<T>, keep: T -> bool)
    ensures Filter(a + b, keep) == Filter(a, keep) + Filter(b, keep)
  {
    if |a| > 0 {
      assert (a + b)[1..] == a[1..] + b;
      FilterAppend(a[1..], b, keep);
    } else {
      assert a + b == b;
    }
  }

  /** Nothing is lost that should be kept: the result is exactly `s`
      without the elements `keep` rejects. */
  lemma {:induction false} FilterAll<T(!new)>(s: seq<T>, keep: T -> bool)
    requires forall x :: x in s ==> keep(x)
    ensures Filter(s, keep) == s
  {
    if |s| > 0 {
      FilterAll(s[1..], keep);
      assert s == [s[0]] + s[1..];
    }
  }

  /** `users.filter(u => u.role === role)`. */
  function UsersWithRole(users: seq<User>, role: UserRole): (r: seq<User>)
    ensures forall u :: u in r ==> u in users && u.role == role
    ensures forall u: User :: u.role == role ==> multiset(r)[u] == multiset(users)[u]
  {
    Filter(users, (u: User) => u.role == role)
  }
}
