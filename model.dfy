/**
  The application state of the widget: the list of fetched users, the
  selected user, and the subscribers that re-render the page whenever the
  state changes (the `Model` class of github.js).
 */
module Application {
  import opened Wrappers
  import opened Records

  /**
    A subscriber, identified abstractly. On the page the subscribers are the
    collection view and the selected-user view; here an invocation is only
    recorded, together with the state it was handed.
   */
  type SubscriberId = nat

  /** One call `each(this)` of a subscriber, with the model state at that moment. */
  datatype Notification = Notification(subscriber: SubscriberId, users: seq<User>, selected: Option<User>)

  /** The calls one `notify()` makes: every subscriber once, in subscription order. */
  function Broadcast(subs: seq<SubscriberId>, users: seq<User>, selected: Option<User>): (calls: seq<Notification>)
    ensures |calls| == |subs|
    ensures forall i :: 0 <= i < |calls| ==> calls[i] == Notification(subs[i], users, selected)
  {
    if |subs| == 0 then []
    else [Notification(subs[0], users, selected)] + Broadcast(subs[1..], users, selected)
  }

  /** Index of the first user whose login is exactly `login`, if any. */
  function FirstWithLogin(users: seq<User>, login: string): (r: Option<nat>)
    ensures r.Some? ==> r.value < |users| && users[r.value].login == login &&
                        forall j :: 0 <= j < r.value ==> users[j].login != login
    ensures r.None? ==> forall j :: 0 <= j < |users| ==> users[j].login != login
  {
    if |users| == 0 then None
    else if users[0].login == login then Some(0)
    else match FirstWithLogin(users[1..], login)
      case None => None
      case Some(k) => Some(k + 1)
  }

  /** `users.filter(function (each) { return each.login === login; })` */
  function WithLogin(users: seq<User>, login: string): (found: seq<User>)
    ensures |found| <= |users|
    ensures forall k :: 0 <= k < |found| ==> found[k].login == login && found[k] in users
    ensures |found| == 0 <==> forall j :: 0 <= j < |users| ==> users[j].login != login
  {
    if |users| == 0 then []
    else if users[0].login == login then [users[0]] + WithLogin(users[1..], login)
    else WithLogin(users[1..], login)
  }

  /** Filtering one more element extends the filtered list by that element when it matches. */
  lemma {:induction false} WithLoginAppend(users: seq<User>, u: User, login: string)
    ensures WithLogin(users + [u], login) ==
            WithLogin(users, login) + (if u.login == login then [u] else [])
  {
    if |users| > 0 {
      assert (users + [u])[1..] == users[1..] + [u];
      WithLoginAppend(users[1..], u, login);
    }
  }

  /** `found[0]` of the filtered list is the first user with that login. */
  lemma {:induction false} WithLoginStartsWithFirst(users: seq<User>, login: string)
    ensures |WithLogin(users, login)| > 0 <==> FirstWithLogin(users, login).Some?
    ensures FirstWithLogin(users, login).Some? ==>
              WithLogin(users, login)[0] == users[FirstWithLogin(users, login).value]
  {
    if |users| > 0 && users[0].login != login {
      WithLoginStartsWithFirst(users[1..], login);
    }
  }

  class Model {
    var subscribers: seq<SubscriberId>
    var users: seq<User>
    var selectedUser: Option<User>
    /** Every subscriber call made so far, oldest first. */
    var log: seq<Notification>

    /** The selected user, when there is one, is one of the fetched users. */
    ghost predicate Valid()
      reads this
    {
      selectedUser.Some? ==> selectedUser.value in users
    }

    constructor ()
      ensures Valid()
      ensures subscribers == [] && users == [] && selectedUser == None && log == []
    {
      subscribers := [];
      users := [];
      selectedUser := None;
      log := [];
    }

    /** Calls every subscriber with the current state, in subscription order. */
    method Notify()
      modifies this`log
      ensures log == old(log) + Broadcast(subscribers, users, selectedUser)
    {
      for i := 0 to |subscribers|
        invariant log == old(log) + Broadcast(subscribers[..i], users, selectedUser)
      {
        log := log + [Notification(subscribers[i], users, selectedUser)];
      }
      assert subscribers[..|subscribers|] == subscribers;
    }

    /** Appends `user` (no check for a duplicate login), selects it and notifies. */
    method AddUser(user: User)
      modifies this
      ensures Valid()
      ensures users == old(users) + [user]
      ensures selectedUser == Some(user)
      ensures subscribers == old(subscribers)
      ensures log == old(log) + Broadcast(subscribers, users, selectedUser)
    {
      users := users + [user];
      selectedUser := Some(user);
      Notify();
    }

    /**
      Selects the first user whose login is `login` and notifies; when no
      user has that login, changes nothing and calls no subscriber.
     */
    method SetSelectedUserByLogin(login: string)
      requires Valid()
      modifies this
      ensures Valid()
      ensures users == old(users) && subscribers == old(subscribers)
      ensures FirstWithLogin(users, login).Some? ==>
                selectedUser == Some(users[FirstWithLogin(users, login).value]) &&
                log == old(log) + Broadcast(subscribers, users, selectedUser)
      ensures FirstWithLogin(users, login).None? ==>
                selectedUser == old(selectedUser) && log == old(log)
    {
      var all := users;
      var found: seq<User> := [];
      for i := 0 to |all|
        invariant found == WithLogin(all[..i], login)
        modifies {}
      {
        assert all[..i + 1] == all[..i] + [all[i]];
        WithLoginAppend(all[..i], all[i], login);
        if all[i].login == login {
          found := found + [all[i]];
        }
      }
      assert all[..|all|] == all;
      WithLoginStartsWithFirst(all, login);
      if |found| > 0 {
        selectedUser := Some(found[0]);
        Notify();
      }
    }
  }

  /**
    The flow of a session: the page subscribes its two views, two searches
    complete, then a profile image is clicked.
   */
  method Session(alice: User, bob: User)
    requires alice.login != bob.login
  {
    var model := new Model();
    model.subscribers := model.subscribers + [0, 1];
    model.AddUser(alice);
    model.AddUser(bob);
    assert model.users == [alice, bob] && model.selectedUser == Some(bob);
    assert |model.log| == 4 && model.log[3] == Notification(1, [alice, bob], Some(bob));
    model.SetSelectedUserByLogin(alice.login);
    assert model.selectedUser == Some(alice) && |model.log| == 6;
    model.SetSelectedUserByLogin("");
    assert alice.login == "" ==> model.selectedUser == Some(alice);
  }
}
