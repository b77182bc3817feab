# GitHub user search widget — a Dafny model

The widget searches GitHub users by login, keeps every fetched profile in an
in-memory model, shows the selected profile with its repositories (most
recently updated first) and lets the user switch between fetched profiles by
clicking their pictures. This project models the part of `github.js` that
holds logic:

- `Application.Model` — the `Model` class: the ordered list of fetched users,
  the selected user (or none), the subscribers, and the three operations
  `notify`, `addUser` and `setSelectedUserByLogin`. Subscribers are abstract
  ids; each call of a subscriber is appended to the field `log` as a
  `Notification` carrying the state the subscriber was handed, so "every
  subscriber is called once, in order, with the new state" is a statement
  about `log`. The class invariant `Valid()` says the selected user, when
  there is one, is one of the fetched users.
- `Sorting` — JavaScript's `<` on strings as the lexicographic order `Less`
  (irreflexive, asymmetric, transitive, total), the three-way comparator
  `sortByProperty`, and a sort that orders repos by it (non-increasing, and a
  permutation of the input).
- `Rendering` — the templates `renderRepo`, `renderUserView` and the markup
  part of `renderSelectedUserView`. Each yields a structured value (a
  sequence of `Block`s, a `UserCard`) saying which fields appear where;
  `Html` and `CardHtml` spell out the markup of those values. JavaScript
  truthiness of a nullable string is `Truthy` (present and non-empty), and
  the `a || b || ... || z` chains are `Records.FirstTruthy`.
- `Records` and `Wrappers` — the user and repo records, with `Option<string>`
  for the fields the API may send as `null`.

## Model

| member | source | states |
|---|---|---|
| `Application.Model.constructor` | github.js:22-26 | a new model has no subscribers, no users, no selected user, has called nobody, and satisfies the invariant |
| `Application.Broadcast` | github.js:32-36 | one notification calls every subscriber exactly once, in subscription order, each with the same state |
| `Application.Model.Notify` | github.js:32-36 | the only change is that the calls of `Broadcast` for the current subscribers and state are appended to the log |
| `Application.Model.AddUser` | github.js:44-48 | the users grow by exactly `user` at the end (earlier users unchanged, no de-duplication), `user` becomes selected, subscribers are unchanged, each is called once in order with the new state, and the invariant holds |
| `Application.FirstWithLogin` | github.js:57-59 | the result is the index of a user with exactly that login before which no user has it, or none exactly when no user has it |
| `Application.WithLogin` | github.js:57 | the filtered list holds only users of the list with that login, and is empty exactly when no user has it |
| `Application.WithLoginAppend` | github.js:57 | filtering a list with one more element at the end appends that element exactly when its login matches |
| `Application.WithLoginStartsWithFirst` | github.js:57-59 | the filtered list is non-empty exactly when some user has the login, and its first element is the first such user |
| `Application.Model.SetSelectedUserByLogin` | github.js:56-62 | users and subscribers are unchanged; when some user has the login, the first such user becomes selected and each subscriber is called once in order; otherwise the selection and the log are unchanged; the invariant is kept |
| `Sorting.LessIrreflexive` | github.js:225-226 | no string is below itself |
| `Sorting.LessAsymmetric` | github.js:225-226 | `a < b` and `b < a` never both hold |
| `Sorting.LessTransitive` | github.js:225-226 | `a < b` and `b < c` give `a < c` |
| `Sorting.LessTotal` | github.js:225-227 | two strings are equal or one is below the other, so the comparator's final `return 0` means equal |
| `Sorting.SortByProperty` | github.js:223-229 | the comparator is 1 exactly when `a[prop] < b[prop]`, -1 exactly when `a[prop] > b[prop]`, and 0 exactly when they are equal |
| `Sorting.ComparatorAntisymmetric` | github.js:223-229 | swapping the arguments negates the comparator |
| `Sorting.SortedIsNonIncreasing` | github.js:96 | a sequence in the comparator's order is non-increasing in the property (descending) |
| `Sorting.Insert` | github.js:96 | inserting into a sorted sequence keeps it sorted and adds exactly that element |
| `Sorting.Sort` | github.js:96 | the result is in the comparator's order and is a permutation of the input |
| `Sorting.SortExample` | github.js:96 | repos updated on 2020-01-01 and 2021-06-01 come out as 2021 then 2020 |
| `Records.FirstTruthy` | github.js:128 | `v0 || v1 || ... || last` is the first truthy operand, or `last` when none is truthy |
| `Rendering.SliceTo` | github.js:94 | `s.slice(0, n)` is the prefix of `s` of length `n`, or all of `s` when it is shorter |
| `Rendering.RenderRepo` | github.js:106-111 | the link goes to `html_url`, its text is `name`, and the small label is `description`, or the text "null" when the description is null |
| `Rendering.RenderRepos` | github.js:96 | one repo line per repo, in the order of the repos |
| `Rendering.RepoLines` | github.js:96 | the sorted repo lines are exactly as many as the user's repos, and all are repo lines |
| `Rendering.Profile` | github.js:91-95 | heading first, location and company lines only for truthy fields and carrying them, then "Joined on" with the first ten characters of `created_at`, then the "Repositories" heading; at most one of each |
| `Rendering.RenderSelectedUser` | github.js:90-96 | the heading shows `name` when truthy and `login` otherwise; a location line and a company line appear exactly when those fields are truthy and carry their values; "Joined on" shows the first ten characters of `created_at`; then the "Repositories" heading and one line per repo; blocks come in the template's order |
| `Rendering.ProfileThenRepos` | github.js:91-96 | the profile blocks followed by repo lines are in the template's order |
| `Rendering.RepoLinesNewestFirst` | github.js:96 | the repo lines of the selected-user view render a permutation of the user's repos, newest `updated_at` first |
| `Rendering.SelectedUserExample` | github.js:91-95 | a user with empty name and location, company "Acme" and `created_at` "2015-03-04T00:00:00Z" renders heading "octo", a company line, no location line, and "Joined on 2015-03-04" |
| `Rendering.RenderUserView` | github.js:118-133 | `data-login` and the heading both carry `login`, the image is `avatar_url`, and the summary is the first truthy of `bio`, `name`, `company`, `location`, else `created_at` |

## Left out

- Page wiring: `document.getElementById`, the `innerHTML` assignments, `addEventListener`, `preventDefault` and the `DOMContentLoaded` bootstrap (github.js:8-13, 75-78, 89, 97, 144-169) are browser side effects. `Application.Session` only shows the resulting flow (two subscribers, two completed searches, a click) against the contracts.
- `renderUserCollectionView` (github.js:74-79) and the two controllers are not part of this model; each call of a subscriber is recorded in `log` with the state it receives, not re-rendered.
- The fetch layer `fetchUser` / `fetchUserRepos` (github.js:183-214) is asynchronous HTTP plus `JSON.parse`; the model starts where its continuation calls `addUser` with a record whose `repos` are filled in, so `repos` is always present.
- Overlapping searches and the order in which their responses arrive: the model is sequential.
- `input.value.toLowerCase()` (github.js:149) is a library case mapping.
- The exact whitespace of the multi-line string literals (github.js:107-109, 119-131).
- Object identity: user and repo records are values, so two records with equal fields cannot be told apart and "the selected user is in the list" is membership by value.
- `Rendering.RenderSelectedUser`: `Array.prototype.sort` sorts `user.repos` in place, so rendering also reorders the selected user's repos inside the model's list; the model sorts a copy and leaves `users` unchanged. The library sort is replaced by an insertion sort; only the order it must produce is modelled, not which of two repos with equal `updated_at` comes first.
- `Sorting.SortByProperty`: property names are limited to the string-valued repo fields (`name`, `html_url`, `updated_at`); comparing the nullable `description` or a missing property is not modelled.
- `Sorting.Less`: characters are compared by Unicode code point, while JavaScript compares UTF-16 code units; the two orders differ only for characters beyond U+FFFF, which never occur in RFC 3339 timestamps.
- A subscriber that throws stops `notify` and a subscriber that changes the model during `notify` is not modelled: subscribers only receive the state.
- `renderSelectedUserView` with no selected user throws in the source; `Rendering.RenderSelectedUser` takes a user, and `AddUser` / `SetSelectedUserByLogin` guarantee that every notification they make carries a selected user.
