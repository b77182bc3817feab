/**
  The string-producing parts of the three templates: `renderRepo`,
  `renderUserView` and the markup `renderSelectedUserView` builds before it
  hands it to the page. Each template yields a structured value that records
  which fields appear where and in which order; `*Html` functions spell out
  the markup for that value (the source's indentation whitespace aside).
 */
module Rendering {
  import opened Wrappers
  import opened Records
  import opened Sorting

  /** `s.slice(0, n)` for a non-negative `n`: the first `n` characters, or all of a shorter string. */
  function SliceTo(s: string, n: nat): (r: string)
    ensures |r| == if |s| < n then |s| else n
    ensures r == s[..|r|]
  {
    if |s| <= n then s else s[..n]
  }

  /** The text JavaScript's `+` yields for a nullable string: `null` reads "null". */
  function Text(v: Option<string>): string {
    match v
    case Some(s) => s
    case None => "null"
  }

  /** One piece of the selected-user view, in the order the view emits them. */
  datatype Block =
    | Heading(text: string)                              // <h2>
    | LocationLine(location: string)                     // map-marker paragraph
    | CompanyLine(company: string)                       // briefcase paragraph
    | JoinedLine(date: string)                           // "Joined on ..." paragraph
    | ReposHeading                                       // <h3>Repositories</h3>
    | RepoLine(href: string, title: string, note: string)  // renderRepo

  /** Position of each kind of block in the selected-user view. */
  function Rank(b: Block): nat {
    match b
    case Heading(_) => 0
    case LocationLine(_) => 1
    case CompanyLine(_) => 2
    case JoinedLine(_) => 3
    case ReposHeading => 4
    case RepoLine(_, _, _) => 5
  }

  /** The markup of one block. */
  function BlockHtml(b: Block): string {
    match b
    case Heading(t) => "<h2>" + t + "</h2>"
    case LocationLine(l) => "<p><span class='glyphicon glyphicon-map-marker'></span> " + l + "</p>"
    case CompanyLine(c) => "<p><span class='glyphicon glyphicon-briefcase'></span> " + c + "</p>"
    case JoinedLine(d) => "<p><span class='glyphicon glyphicon-time'></span> Joined on " + d + "</p>"
    case ReposHeading => "<h3>Repositories</h3>"
    case RepoLine(h, t, l) => "<h4><a href='" + h + "'>" + t + "</a> <small>" + l + "</small></h4>"
  }

  /** The markup of a sequence of blocks, joined with no separator. */
  function Html(bs: seq<Block>): string {
    if |bs| == 0 then "" else BlockHtml(bs[0]) + Html(bs[1..])
  }

  /** `renderRepo(repo)` */
  function RenderRepo(r: Repo): (b: Block)
    ensures b.RepoLine? && Rank(b) == 5
    ensures b.href == r.htmlUrl && b.title == r.name
    ensures r.description.Some? ==> b.note == r.description.value
    ensures r.description.None? ==> b.note == "null"
  {
    RepoLine(r.htmlUrl, r.name, Text(r.description))
  }

  /** `repos.map(renderRepo)` */
  function RenderRepos(repos: seq<Repo>): (bs: seq<Block>)
    ensures |bs| == |repos|
    ensures forall i :: 0 <= i < |bs| ==> bs[i] == RenderRepo(repos[i])
  {
    if |repos| == 0 then [] else [RenderRepo(repos[0])] + RenderRepos(repos[1..])
  }

  /** Blocks strictly follow the template's order: at most one of each kind. */
  ghost predicate StrictlyOrdered(bs: seq<Block>) {
    forall i, j :: 0 <= i < j < |bs| ==> Rank(bs[i]) < Rank(bs[j])
  }

  /**
    The part of the selected-user view before the repositories: the heading,
    the optional location and company lines, "Joined on", and the
    "Repositories" heading.
   */
  function Profile(u: User): (bs: seq<Block>)
    ensures 3 <= |bs| <= 5 && StrictlyOrdered(bs)
    ensures forall i :: 0 <= i < |bs| ==> Rank(bs[i]) < 5
    ensures bs[0] == Heading(FirstTruthy([u.name], u.login))
    ensures bs[|bs| - 2] == JoinedLine(SliceTo(u.createdAt, 10))
    ensures bs[|bs| - 1] == ReposHeading
    ensures Truthy(u.location) ==> bs[1] == LocationLine(u.location.value)
    ensures forall i :: 0 <= i < |bs| && bs[i].LocationLine? ==>
              Truthy(u.location) && bs[i].location == u.location.value
    ensures Truthy(u.company) ==> bs[if Truthy(u.location) then 2 else 1] == CompanyLine(u.company.value)
    ensures forall i :: 0 <= i < |bs| && bs[i].CompanyLine? ==>
              Truthy(u.company) && bs[i].company == u.company.value
  {
    var heading := Heading(FirstTruthy([u.name], u.login));
    var joined := JoinedLine(SliceTo(u.createdAt, 10));
    match (Truthy(u.location), Truthy(u.company))
    case (true, true) =>
      var bs := [heading, LocationLine(u.location.value), CompanyLine(u.company.value), joined, ReposHeading];
      bs
    case (true, false) =>
      var bs := [heading, LocationLine(u.location.value), joined, ReposHeading];
      bs
    case (false, true) =>
      var bs := [heading, CompanyLine(u.company.value), joined, ReposHeading];
      bs
    case (false, false) => [heading, joined, ReposHeading]
  }

  /** `user.repos.sort(sortByProperty('updated_at')).map(renderRepo)` */
  function RepoLines(repos: seq<Repo>): (bs: seq<Block>)
    ensures |bs| == |repos|
    ensures forall i :: 0 <= i < |bs| ==> bs[i].RepoLine?
  {
    var sorted := Sort(UpdatedAt, repos);
    assert |sorted| == |repos| by {
      assert |multiset(sorted)| == |multiset(repos)|;
    }
    RenderRepos(sorted)
  }

  /** The markup `renderSelectedUserView(model)` assigns, for the selected user `u`. */
  function RenderSelectedUser(u: User): (bs: seq<Block>)
    ensures |bs| >= |u.repos| + 3
    // the heading is the name when truthy, otherwise the login
    ensures bs[0].Heading?
    ensures Truthy(u.name) ==> bs[0].text == u.name.value
    ensures !Truthy(u.name) ==> bs[0].text == u.login
    // a location line (a company line) appears, carrying the field, exactly when the field is truthy
    ensures Truthy(u.location) ==> bs[1] == LocationLine(u.location.value)
    ensures forall i :: 0 <= i < |bs| && bs[i].LocationLine? ==>
              Truthy(u.location) && bs[i].location == u.location.value
    ensures Truthy(u.company) ==> bs[if Truthy(u.location) then 2 else 1] == CompanyLine(u.company.value)
    ensures forall i :: 0 <= i < |bs| && bs[i].CompanyLine? ==>
              Truthy(u.company) && bs[i].company == u.company.value
    // "Joined on" carries the first ten characters of created_at, then come the repositories
    ensures bs[|bs| - |u.repos| - 2] == JoinedLine(SliceTo(u.createdAt, 10))
    ensures bs[|bs| - |u.repos| - 1] == ReposHeading
    ensures TemplateOrder(bs)
  {
    var profile := Profile(u);
    var repos := RepoLines(u.repos);
    ProfileThenRepos(profile, repos);
    profile + repos
  }

  /** Blocks come in the template's order, and only repo lines repeat. */
  ghost predicate TemplateOrder(bs: seq<Block>) {
    forall i, j :: 0 <= i < j < |bs| ==>
      Rank(bs[i]) <= Rank(bs[j]) && (Rank(bs[i]) == Rank(bs[j]) ==> bs[i].RepoLine?)
  }

  lemma ProfileThenRepos(profile: seq<Block>, repos: seq<Block>)
    requires StrictlyOrdered(profile) && forall k :: 0 <= k < |profile| ==> Rank(profile[k]) < 5
    requires forall k :: 0 <= k < |repos| ==> repos[k].RepoLine?
    ensures TemplateOrder(profile + repos)
  {
    var bs := profile + repos;
    forall i, j | 0 <= i < j < |bs|
      ensures Rank(bs[i]) <= Rank(bs[j]) && (Rank(bs[i]) == Rank(bs[j]) ==> bs[i].RepoLine?)
    {
      if j < |profile| {
        assert bs[i] == profile[i] && bs[j] == profile[j];
      } else if i < |profile| {
        assert bs[i] == profile[i] && bs[j] == repos[j - |profile|];
      } else {
        assert bs[i] == repos[i - |profile|] && bs[j] == repos[j - |profile|];
      }
    }
  }

  /**
    The repository part of the selected-user view lists every repo of the
    user exactly once, most recently updated first.
   */
  lemma {:induction false} RepoLinesNewestFirst(u: User)
    ensures var bs := RenderSelectedUser(u);
            exists shown: seq<Repo> ::
              multiset(shown) == multiset(u.repos) &&
              (forall i, j :: 0 <= i < j < |shown| ==>
                 !Less(shown[i].updatedAt, shown[j].updatedAt)) &&
              bs[|bs| - |u.repos|..] == RenderRepos(shown)
  {
    var bs := RenderSelectedUser(u);
    var shown := Sort(UpdatedAt, u.repos);
    assert bs == Profile(u) + RepoLines(u.repos);
    assert |shown| == |u.repos| by {
      assert |multiset(shown)| == |multiset(u.repos)|;
    }
    forall i, j | 0 <= i < j < |shown| ensures !Less(shown[i].updatedAt, shown[j].updatedAt) {
      assert SortByProperty(UpdatedAt, shown[i], shown[j]) <= 0;
    }
    assert bs[|bs| - |u.repos|..] == RenderRepos(shown);
  }

  /** One entry of the user collection view, as `renderUserView(user)` renders it. */
  datatype UserCard = UserCard(dataLogin: string, avatarSrc: string, heading: string, summary: string)

  /** The markup of a user card. */
  function CardHtml(c: UserCard): string {
    "<div class='media'><div class='media-left'><a href='#' class='user-link' data-login='" + c.dataLogin
    + "'><img src='" + c.avatarSrc + "' style='width:64px;' class='img-circle'></a></div>"
    + "<div class='media-body'><h4 class='media-heading'>" + c.heading + "</h4><p>" + c.summary
    + "</p></div></div>"
  }

  /** `renderUserView(user)` */
  function RenderUserView(u: User): (c: UserCard)
    ensures c.dataLogin == u.login && c.heading == u.login
    ensures c.avatarSrc == u.avatarUrl
    // the summary is the first truthy of bio, name, company, location, else created_at
    ensures Truthy(u.bio) ==> c.summary == u.bio.value
    ensures !Truthy(u.bio) && Truthy(u.name) ==> c.summary == u.name.value
    ensures !Truthy(u.bio) && !Truthy(u.name) && Truthy(u.company) ==> c.summary == u.company.value
    ensures !Truthy(u.bio) && !Truthy(u.name) && !Truthy(u.company) && Truthy(u.location) ==>
              c.summary == u.location.value
    ensures !Truthy(u.bio) && !Truthy(u.name) && !Truthy(u.company) && !Truthy(u.location) ==>
              c.summary == u.createdAt
  {
    var fields := [u.bio, u.name, u.company, u.location];
    assert fields[0] == u.bio && fields[1] == u.name && fields[2] == u.company && fields[3] == u.location;
    UserCard(u.login, u.avatarUrl, u.login, FirstTruthy(fields, u.createdAt))
  }

  /**
    A user with an empty name and location, a company, and a created_at
    date-time: the heading falls back to the login, there is a company line
    and no location line, and the user joined on the calendar date.
   */
  lemma SelectedUserExample(u: User)
    requires u.login == "octo" && u.name == Some("") && u.bio == Some("")
    requires u.company == Some("Acme") && u.location == Some("")
    requires u.createdAt == "2015-03-04T00:00:00Z" && u.repos == []
    ensures RenderSelectedUser(u) ==
              [Heading("octo"), CompanyLine("Acme"), JoinedLine("2015-03-04"), ReposHeading]
  {
    assert u.createdAt[..10] == "2015-03-04";
  }
}
