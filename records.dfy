/**
  The two kinds of record the widget receives from the GitHub REST API: a
  user profile (from /users/{login}) and a repository (from the user's
  repos_url). Fields the API may send as `null` are `Option<string>`.
 */
module Records {
  import opened Wrappers

  /** A repository record; `description` is `null` for repos without one. */
  datatype Repo = Repo(
    name: string,
    description: Option<string>,
    htmlUrl: string,
    updatedAt: string)    // an RFC 3339 date-time, e.g. "2021-06-01T12:00:00Z"

  /**
    A user record. `repos` is filled in by the second request before the
    record ever reaches the model, so here it is always present.
   */
  datatype User = User(
    login: string,
    name: Option<string>,
    bio: Option<string>,
    company: Option<string>,
    location: Option<string>,
    avatarUrl: string,
    createdAt: string,    // an RFC 3339 date-time
    reposUrl: string,
    repos: seq<Repo>)

  /** JavaScript truthiness of a nullable string: present and not empty. */
  predicate Truthy(v: Option<string>) {
    v.Some? && v.value != ""
  }

  /**
    The chain `v[0] || v[1] || ... || last` on nullable strings: the first
    truthy operand, or `last` when none is truthy.
   */
  function FirstTruthy(v: seq<Option<string>>, last: string): (r: string)
    ensures (forall i :: 0 <= i < |v| ==> !Truthy(v[i])) ==> r == last
    ensures forall i :: 0 <= i < |v| && Truthy(v[i]) && (forall j :: 0 <= j < i ==> !Truthy(v[j])) ==>
              r == v[i].value
  {
    if |v| == 0 then last
    else if Truthy(v[0]) then v[0].value
    else FirstTruthy(v[1..], last)
  }
}
