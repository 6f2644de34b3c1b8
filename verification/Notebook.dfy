/** The notebook platform's managed endpoints: one per name, and the ARNs written into each user's policy. */
module Notebook {
  import opened Basics

  datatype Endpoint = Endpoint(managedEndpointName: Option<string>, policyName: string)

  datatype AuthMode = IAM | SSO

  datatype User = User(identityName: string, identityType: string, endpoints: seq<Endpoint>)

  /** An endpoint is known by its place in the order of creation. */
  type Arn = nat

  /** The name given, unless it is empty, or else the name of the execution policy. */
  function EndpointName(e: Endpoint): string {
    if e.managedEndpointName.Some? && e.managedEndpointName.value != "" then e.managedEndpointName.value else e.policyName
  }

  /** `managedEndpointExecutionPolicyArnMapping`, and the name of every endpoint created, in order. */
  datatype Cache = Cache(mapping: map<string, Arn>, created: seq<string>)

  const NO_ENDPOINTS := Cache(map[], [])

  /** An endpoint whose name is new is created. */
  function AddOne(c: Cache, e: Endpoint): Cache {
    var name := EndpointName(e);
    if name in c.mapping then c else Cache(c.mapping[name := |c.created|], c.created + [name])
  }

  function AddAll(c: Cache, es: seq<Endpoint>): Cache {
    if es == [] then c else AddOne(AddAll(c, es[..|es| - 1]), es[|es| - 1])
  }

  lemma AddAllKnows(c: Cache, es: seq<Endpoint>)
    requires es != []
    ensures EndpointName(es[|es| - 1]) in AddAll(c, es).mapping
  {
  }

  /** The ARNs pushed while the endpoints are added. */
  function Pushed(c: Cache, es: seq<Endpoint>): (r: seq<Arn>)
    ensures |r| == |es|
  {
    if es == [] then [] else
      AddAllKnows(c, es);
      Pushed(c, es[..|es| - 1]) + [AddAll(c, es).mapping[EndpointName(es[|es| - 1])]]
  }

  lemma {:induction false} AddAllConcat(c: Cache, a: seq<Endpoint>, b: seq<Endpoint>)
    ensures AddAll(c, a + b) == AddAll(AddAll(c, a), b)
    ensures Pushed(c, a + b) == Pushed(c, a) + Pushed(AddAll(c, a), b)
    decreases b
  {
    if b == [] {
      assert a + b == a;
    } else {
      var front := b[..|b| - 1];
      assert (a + b)[..|a + b| - 1] == a + front;
      AddAllConcat(c, a, front);
    }
  }

  /** All endpoints of some users, in order. */
  function EndpointsOf(users: seq<User>): seq<Endpoint> {
    if users == [] then [] else EndpointsOf(users[..|users| - 1]) + users[|users| - 1].endpoints
  }

  /** The list passed for each user: what has been pushed for all users up to that one. */
  function ListsFor(c: Cache, users: seq<User>): (r: seq<seq<Arn>>)
    ensures |r| == |users|
  {
    if users == [] then [] else ListsFor(c, users[..|users| - 1]) + [Pushed(c, EndpointsOf(users))]
  }

  lemma {:induction false} ListsForAt(c: Cache, users: seq<User>, u: nat)
    requires u < |users|
    ensures ListsFor(c, users)[u] == Pushed(c, EndpointsOf(users[..u + 1]))
  {
    var front := users[..|users| - 1];
    assert ListsFor(c, users) == ListsFor(c, front) + [Pushed(c, EndpointsOf(users))];
    if u < |front| {
      ListsForAt(c, front, u);
      Prefixes(users, u + 1, |front|);
    } else {
      Prefixes(users, u, u + 1);
    }
  }

  /** What adding the endpoints of these users to `before` comes to. */
  predicate Added(before: Cache, users: seq<User>, now: Cache, arns: seq<Arn>, lists: seq<seq<Arn>>) {
    && now == AddAll(before, EndpointsOf(users)) && arns == Pushed(before, EndpointsOf(users))
    && lists == ListsFor(before, users)
  }

  lemma AddedNext(before: Cache, users: seq<User>, u: nat, now: Cache, arns: seq<Arn>, lists: seq<seq<Arn>>)
    requires u < |users| && Added(before, users[..u], now, arns, lists)
    ensures var more := arns + Pushed(now, users[u].endpoints);
            Added(before, users[..u + 1], AddAll(now, users[u].endpoints), more, lists + [more])
  {
    NextUser(before, users, u);
  }

  lemma NextEndpoint(c: Cache, es: seq<Endpoint>, i: nat)
    requires i < |es|
    ensures var next := AddOne(AddAll(c, es[..i]), es[i]);
            && AddAll(c, es[..i + 1]) == next
            && EndpointName(es[i]) in next.mapping
            && Pushed(c, es[..i + 1]) == Pushed(c, es[..i]) + [next.mapping[EndpointName(es[i])]]
  {
    Prefixes(es, i, i + 1);
  }

  lemma NextUser(c: Cache, users: seq<User>, u: nat)
    requires u < |users|
    ensures EndpointsOf(users[..u + 1]) == EndpointsOf(users[..u]) + users[u].endpoints
    ensures AddAll(c, EndpointsOf(users[..u + 1])) == AddAll(AddAll(c, EndpointsOf(users[..u])), users[u].endpoints)
    ensures Pushed(c, EndpointsOf(users[..u + 1]))
         == Pushed(c, EndpointsOf(users[..u])) + Pushed(AddAll(c, EndpointsOf(users[..u])), users[u].endpoints)
    ensures ListsFor(c, users[..u + 1]) == ListsFor(c, users[..u]) + [Pushed(c, EndpointsOf(users[..u + 1]))]
  {
    Prefixes(users, u, u + 1);
    AddAllConcat(c, EndpointsOf(users[..u]), users[u].endpoints);
  }

  predicate Refused(authMode: AuthMode, user: User) {
    authMode == SSO && OtherIdentity(user)
  }

  /** Neither a user nor a group. */
  predicate OtherIdentity(user: User) {
    user.identityType !in {"USER", "GROUP"}
  }

  /** The users that one call deals with: all, or those up to the first one that is refused. */
  function Served(authMode: AuthMode, users: seq<User>): seq<User> {
    if users == [] then []
    else if Refused(authMode, users[0]) then [users[0]]
    else [users[0]] + Served(authMode, users[1..])
  }

  lemma {:induction false} ServedUpTo(authMode: AuthMode, users: seq<User>, u: nat)
    requires u <= |users| && forall v :: 0 <= v < u ==> !Refused(authMode, users[v])
    ensures u == |users| ==> Served(authMode, users) == users[..u]
    ensures u < |users| && Refused(authMode, users[u]) ==> Served(authMode, users) == users[..u + 1]
  {
    if u > 0 {
      ServedUpTo(authMode, users[1..], u - 1);
      assert users[..u] == [users[0]] + users[1..][..u - 1];
      if u < |users| {
        assert users[..u + 1] == [users[0]] + users[1..][..u];
      }
    }
  }

  class NotebookPlatform {
    var cache: Cache

    constructor ()
      ensures cache == NO_ENDPOINTS
    {
      cache := NO_ENDPOINTS;
    }

    /** Every list passed to a policy is the ARNs pushed for all users so far, in order. In SSO mode an
        identity that is neither a user nor a group stops the call after its policy. */
    method AddUser(authMode: AuthMode, users: seq<User>) returns (lists: seq<seq<Arn>>, throws: bool)
      modifies this
      ensures throws <==> authMode == SSO && exists u :: 0 <= u < |users| && OtherIdentity(users[u])
      ensures if throws then 0 < |lists| <= |users| && Refused(authMode, users[|lists| - 1]) else |lists| == |users|
      ensures |lists| <= |users| && users[..|lists|] == Served(authMode, users)
      ensures cache == AddAll(old(cache), EndpointsOf(Served(authMode, users)))
      ensures lists == ListsFor(old(cache), Served(authMode, users))
    {
      var arns: seq<Arn> := [];
      lists := [];
      for u := 0 to |users|
        invariant forall v :: 0 <= v < u ==> !Refused(authMode, users[v])
        invariant Added(old(cache), users[..u], cache, arns, lists)
      {
        var user := users[u];
        AddedNext(old(cache), users, u, cache, arns, lists);
        var more := AddEndpoints(user);
        arns := arns + more;
        lists := lists + [arns];
        if authMode == SSO && !(user.identityType == "USER" || user.identityType == "GROUP") {
          ServedUpTo(authMode, users, u);
          return lists, true;
        }
      }
      ServedUpTo(authMode, users, |users|);
      throws := false;
    }

    /** The inner loop of `addUser`, over the endpoints of one user. */
    method AddEndpoints(user: User) returns (arns: seq<Arn>)
      modifies this
      ensures cache == AddAll(old(cache), user.endpoints)
      ensures arns == Pushed(old(cache), user.endpoints)
    {
      arns := [];
      for index := 0 to |user.endpoints|
        invariant cache == AddAll(old(cache), user.endpoints[..index])
        invariant arns == Pushed(old(cache), user.endpoints[..index])
      {
        var endpoint := user.endpoints[index];
        var name := EndpointName(endpoint);
        NextEndpoint(old(cache), user.endpoints, index);
        if name !in cache.mapping {
          cache := Cache(cache.mapping[name := |cache.created|], cache.created + [name]);
          arns := arns + [|cache.created| - 1];
        } else {
          arns := arns + [cache.mapping[name]];
        }
      }
      Prefixes(user.endpoints, 0, |user.endpoints|);
    }
  }

  // ---------- One endpoint per name ----------

  /** Each name has one endpoint, and its cached ARN is that endpoint's. */
  ghost predicate OneEach(c: Cache) {
    && (forall n | n in c.mapping :: c.mapping[n] < |c.created| && c.created[c.mapping[n]] == n)
    && (forall i :: 0 <= i < |c.created| ==> c.created[i] in c.mapping && c.mapping[c.created[i]] == i)
  }

  predicate Named(es: seq<Endpoint>, n: string) {
    exists e | e in es :: EndpointName(e) == n
  }

  /** The ARNs of the endpoints, by the cache. */
  predicate Answers(c: Cache, es: seq<Endpoint>, arns: seq<Arn>) {
    |arns| == |es| && forall i :: 0 <= i < |es| ==> EndpointName(es[i]) in c.mapping && arns[i] == c.mapping[EndpointName(es[i])]
  }

  lemma AddOneKeeps(c: Cache, e: Endpoint)
    requires OneEach(c)
    ensures OneEach(AddOne(c, e)) && c.created <= AddOne(c, e).created
    ensures forall n :: n in AddOne(c, e).mapping <==> n in c.mapping || n == EndpointName(e)
  {
  }

  lemma {:induction false} KeepsOneEach(c: Cache, es: seq<Endpoint>)
    requires OneEach(c)
    ensures OneEach(AddAll(c, es)) && c.created <= AddAll(c, es).created
  {
    if es != [] {
      KeepsOneEach(c, es[..|es| - 1]);
      AddOneKeeps(AddAll(c, es[..|es| - 1]), es[|es| - 1]);
    }
  }

  lemma {:induction false} CachedNames(c: Cache, es: seq<Endpoint>, n: string)
    ensures n in AddAll(c, es).mapping <==> n in c.mapping || Named(es, n)
  {
    if es != [] {
      var front, last := es[..|es| - 1], es[|es| - 1];
      CachedNames(c, front, n);
      assert es == front + [last];
      assert Named(es, n) <==> Named(front, n) || n == EndpointName(last) by {
        assert forall e | e in es :: e in front || e == last;
        assert last in es;
      }
    }
  }

  lemma {:induction false} PushedAnswers(c: Cache, es: seq<Endpoint>)
    ensures Answers(AddAll(c, es), es, Pushed(c, es))
  {
    if es != [] {
      PushedAnswers(c, es[..|es| - 1]);
      AddAllKnows(c, es);
    }
  }

  /** Over any series of endpoints, in one call or many: one endpoint is created for each distinct name, the
      cached ARN of a name is that endpoint's, and the list pushed holds the ARN of every endpoint asked
      for, at its place. */
  lemma {:induction false} OneEndpointPerName(es: seq<Endpoint>)
    ensures var c := AddAll(NO_ENDPOINTS, es);
            && OneEach(c)
            && (forall i, j :: 0 <= i < j < |c.created| ==> c.created[i] != c.created[j])
            && (forall n :: n in c.created <==> Named(es, n))
            && Answers(c, es, Pushed(NO_ENDPOINTS, es))
  {
    var c := AddAll(NO_ENDPOINTS, es);
    KeepsOneEach(NO_ENDPOINTS, es);
    PushedAnswers(NO_ENDPOINTS, es);
    forall n ensures n in c.created <==> Named(es, n) {
      CachedNames(NO_ENDPOINTS, es, n);
      if n in c.mapping {
        assert c.created[c.mapping[n]] == n;
      }
    }
  }

  /** Which two endpoints are one: they have the same name; or one has none, or the empty one, and its policy's
      name is the name, or for lack of that the policy name, of the other. */
  lemma OneOrTwo(e: Endpoint, o: Endpoint)
    ensures var (n, p) := (e.managedEndpointName, o.managedEndpointName);
            var (named, other) := (n.Some? && n != Some(""), p.Some? && p != Some(""));
            |AddAll(NO_ENDPOINTS, [e, o]).created| ==
            if (if named && other then n == p
                else if named then n.value == o.policyName
                else if other then p.value == e.policyName
                else e.policyName == o.policyName)
            then 1 else 2
  {
    assert [e, o][..1] == [e] && [e][..0] == [];
    assert AddAll(NO_ENDPOINTS, [e]) == AddOne(NO_ENDPOINTS, e);
    assert AddAll(NO_ENDPOINTS, [e, o]) == AddOne(AddOne(NO_ENDPOINTS, e), o);
  }

  // ---------- Over many calls ----------

  datatype Call = Call(authMode: AuthMode, users: seq<User>)

  /** The cache after a series of calls of `addUser`; a call that throws keeps what it created. */
  function CacheAfter(calls: seq<Call>): Cache {
    if calls == [] then NO_ENDPOINTS else
      var last := calls[|calls| - 1];
      AddAll(CacheAfter(calls[..|calls| - 1]), EndpointsOf(Served(last.authMode, last.users)))
  }

  /** All endpoints asked for in the calls, in order. */
  function Asked(calls: seq<Call>): seq<Endpoint> {
    if calls == [] then [] else
      var last := calls[|calls| - 1];
      Asked(calls[..|calls| - 1]) + EndpointsOf(Served(last.authMode, last.users))
  }

  lemma {:induction false} CacheAfterIs(calls: seq<Call>)
    ensures CacheAfter(calls) == AddAll(NO_ENDPOINTS, Asked(calls))
  {
    if calls != [] {
      var front, last := calls[..|calls| - 1], calls[|calls| - 1];
      CacheAfterIs(front);
      AddAllConcat(NO_ENDPOINTS, Asked(front), EndpointsOf(Served(last.authMode, last.users)));
    }
  }

  /** Over any series of calls, with users that are refused: one endpoint is created for each distinct name
      asked for, and the cached ARN of a name is that endpoint's. */
  lemma OneEndpointOverCalls(calls: seq<Call>)
    ensures var c := CacheAfter(calls);
            && OneEach(c)
            && (forall i, j :: 0 <= i < j < |c.created| ==> c.created[i] != c.created[j])
            && (forall n :: n in c.created <==> Named(Asked(calls), n))
  {
    CacheAfterIs(calls);
    OneEndpointPerName(Asked(calls));
  }

  /** What is cached stays. */
  predicate Knows(c: Cache, before: Cache) {
    forall n | n in before.mapping :: n in c.mapping && c.mapping[n] == before.mapping[n]
  }

  lemma {:induction false} MappingStays(c: Cache, es: seq<Endpoint>)
    ensures Knows(AddAll(c, es), c)
  {
    if es != [] {
      MappingStays(c, es[..|es| - 1]);
    }
  }

  lemma {:induction false} CallsStay(calls: seq<Call>, k: nat)
    requires k <= |calls|
    ensures Knows(CacheAfter(calls), CacheAfter(calls[..k]))
    decreases calls
  {
    if k == |calls| {
      Prefixes(calls, k, k);
    } else {
      var front, last := calls[..|calls| - 1], calls[|calls| - 1];
      Prefixes(calls, k, |calls| - 1);
      CallsStay(front, k);
      MappingStays(CacheAfter(front), EndpointsOf(Served(last.authMode, last.users)));
    }
  }

  /** A list passed in any call holds, after any further calls, the cached ARNs of the endpoints asked for
      up to its user in its call, each at its place. */
  lemma ListsStayRight(calls: seq<Call>, k: nat, u: nat)
    requires k < |calls| && u < |Served(calls[k].authMode, calls[k].users)|
    ensures var served := Served(calls[k].authMode, calls[k].users);
            Answers(CacheAfter(calls), EndpointsOf(served[..u + 1]), ListsFor(CacheAfter(calls[..k]), served)[u])
  {
    var served, before := Served(calls[k].authMode, calls[k].users), CacheAfter(calls[..k]);
    var upTo := EndpointsOf(served[..u + 1]);
    ListsForAt(before, served, u);
    PushedAnswers(before, upTo);
    Prefixes(calls, k, k + 1);
    CallsStay(calls, k + 1);
    EndpointsSplit(served, u + 1);
    AddAllConcat(before, upTo, EndpointsOf(served[u + 1..]));
    MappingStays(AddAll(before, upTo), EndpointsOf(served[u + 1..]));
  }

  lemma {:induction false} EndpointsSplit(users: seq<User>, u: nat)
    requires u <= |users|
    ensures EndpointsOf(users) == EndpointsOf(users[..u]) + EndpointsOf(users[u..])
    decreases users
  {
    if u == |users| {
      Prefixes(users, u, u);
    } else {
      var front := users[..|users| - 1];
      Prefixes(users, u, |front|);
      EndpointsSplit(front, u);
      assert users[u..][..|users[u..]| - 1] == front[u..];
    }
  }

  // ---------- Whose endpoints a list holds ----------

  lemma AnswersHas(c: Cache, es: seq<Endpoint>, arns: seq<Arn>, e: Endpoint)
    requires Answers(c, es, arns) && e in es
    ensures EndpointName(e) in c.mapping && c.mapping[EndpointName(e)] in arns
  {
  }

  /** The list passed for a user holds the ARN of each of that user's endpoints. */
  lemma ListHoldsOwnEndpoints(c: Cache, users: seq<User>, u: nat, e: Endpoint)
    requires u < |users| && e in users[u].endpoints
    ensures EndpointName(e) in AddAll(c, EndpointsOf(users[..u + 1])).mapping
    ensures AddAll(c, EndpointsOf(users[..u + 1])).mapping[EndpointName(e)] in ListsFor(c, users)[u]
  {
    ListsForAt(c, users, u);
    var all := EndpointsOf(users[..u + 1]);
    assert e in all by {
      NextUser(c, users, u);
    }
    PushedAnswers(c, all);
    AnswersHas(AddAll(c, all), all, Pushed(c, all), e);
  }

  /** Every ARN of the list is that of one of these endpoints. */
  predicate OnlyOwn(c: Cache, own: seq<Endpoint>, arns: seq<Arn>) {
    forall a | a in arns :: OneOf(c, own, a)
  }

  predicate OneOf(c: Cache, own: seq<Endpoint>, a: Arn) {
    exists e | e in own :: EndpointName(e) in c.mapping && c.mapping[EndpointName(e)] == a
  }

  lemma SameArnSameName(c: Cache, n: string, m: string)
    requires OneEach(c) && n in c.mapping && m in c.mapping && c.mapping[n] == c.mapping[m]
    ensures n == m
  {
  }

  lemma OthersAreNamed(c: Cache, own: seq<Endpoint>, all: seq<Endpoint>, arns: seq<Arn>, e: Endpoint)
    requires OneEach(c) && Answers(c, all, arns) && OnlyOwn(c, own, arns) && e in all
    ensures Named(own, EndpointName(e))
  {
    AnswersHas(c, all, arns, e);
    assert OneOf(c, own, c.mapping[EndpointName(e)]);
    var o :| o in own && EndpointName(o) in c.mapping && c.mapping[EndpointName(o)] == c.mapping[EndpointName(e)];
    SameArnSameName(c, EndpointName(o), EndpointName(e));
  }

  lemma NamedIsOwn(c: Cache, own: seq<Endpoint>, all: seq<Endpoint>, arns: seq<Arn>, a: Arn)
    requires Answers(c, all, arns) && a in arns && forall e | e in all :: Named(own, EndpointName(e))
    ensures OneOf(c, own, a)
  {
    var i :| 0 <= i < |all| && arns[i] == a;
    assert all[i] in all;
    var o :| o in own && EndpointName(o) == EndpointName(all[i]);
  }

  lemma OnlyOwnIff(c: Cache, before: seq<Endpoint>, own: seq<Endpoint>, arns: seq<Arn>)
    requires OneEach(c) && Answers(c, before + own, arns)
    ensures OnlyOwn(c, own, arns) <==> forall e | e in before :: Named(own, EndpointName(e))
  {
    if OnlyOwn(c, own, arns) {
      forall e | e in before ensures Named(own, EndpointName(e)) {
        OthersAreNamed(c, own, before + own, arns, e);
      }
    } else if forall e | e in before :: Named(own, EndpointName(e)) {
      forall a | a in arns ensures OneOf(c, own, a) {
        NamedIsOwn(c, own, before + own, arns, a);
      }
    }
  }

  /** The list passed for a user holds ARNs of that user's endpoints alone iff every endpoint of the users
      before it in the call is, by its name, one of the user's own. */
  lemma ListHoldsOnlyOwnIff(c: Cache, users: seq<User>, u: nat)
    requires OneEach(c) && u < |users|
    ensures OnlyOwn(AddAll(c, EndpointsOf(users[..u + 1])), users[u].endpoints, ListsFor(c, users)[u])
       <==> forall e | e in EndpointsOf(users[..u]) :: Named(users[u].endpoints, EndpointName(e))
  {
    var all := EndpointsOf(users[..u + 1]);
    NextUser(c, users, u);
    ListsForAt(c, users, u);
    PushedAnswers(c, all);
    KeepsOneEach(c, all);
    OnlyOwnIff(AddAll(c, all), EndpointsOf(users[..u]), users[u].endpoints, Pushed(c, all));
  }

  /** It does fail so: the second of two users with one endpoint each is given both ARNs. */
  lemma SecondUserGetsBoth()
    ensures var x, y := Endpoint(Some("x"), ""), Endpoint(Some("y"), "");
            var users := [User("a", "USER", [x]), User("b", "USER", [y])];
            && ListsFor(NO_ENDPOINTS, users)[1] == [0, 1]
            && !OnlyOwn(AddAll(NO_ENDPOINTS, EndpointsOf(users)), [y], ListsFor(NO_ENDPOINTS, users)[1])
  {
    var x, y := Endpoint(Some("x"), ""), Endpoint(Some("y"), "");
    var a, b := User("a", "USER", [x]), User("b", "USER", [y]);
    var users := [a, b];
    assert users[..1] == [a] && users[..2] == users && [a][..0] == [] && [x, y][..1] == [x] && [x][..0] == [];
    assert EndpointsOf([a]) == [x] && EndpointsOf(users) == [x, y];
    assert EndpointName(x) == "x" && EndpointName(y) == "y";
    assert AddAll(NO_ENDPOINTS, [x]) == Cache(map["x" := 0], ["x"]);
    assert AddAll(NO_ENDPOINTS, [x, y]) == Cache(map["x" := 0, "y" := 1], ["x", "y"]);
    assert Pushed(NO_ENDPOINTS, [x, y]) == [0, 1];
    assert 0 in [0, 1] && !OneOf(AddAll(NO_ENDPOINTS, [x, y]), [y], 0);
  }

  // ---------- Writing the ARNs into a policy ----------

  /** `indexOf`: the place of the first occurrence. */
  function IndexOf(arns: seq<string>, arn: string): (i: nat)
    requires arn in arns
    ensures i < |arns| && arns[i] == arn && forall j :: 0 <= j < i ==> arns[j] != arn
  {
    if arns[0] == arn then 0 else
      HeadTail(arns);
      1 + IndexOf(arns[1..], arn)
  }

  predicate IsFirst(arns: seq<string>, j: nat)
    requires j < |arns|
  {
    forall i :: 0 <= i < j ==> arns[i] != arns[j]
  }

  /** Slot j of a JavaScript array; the slots beyond its end, and its holes, are undefined. */
  function Slot(a: seq<Option<string>>, j: nat): Option<string> {
    if j < |a| then a[j] else None
  }

  /** `a[i] = v`, which extends the array when i is beyond its end. */
  function Store(a: seq<Option<string>>, i: nat, v: string): (r: seq<Option<string>>)
    ensures forall j: nat :: Slot(r, j) == if j == i then Some(v) else Slot(a, j)
  {
    if i < |a| then a[i := Some(v)] else a + seq(i - |a|, _ => None) + [Some(v)]
  }

  /** The `Resource` arrays of the two statements that scope a policy to its endpoints. */
  class Policy {
    var accessToken: seq<Option<string>>
    var describe: seq<Option<string>>

    constructor (accessToken: seq<Option<string>>, describe: seq<Option<string>>)
      ensures this.accessToken == accessToken && this.describe == describe
    {
      this.accessToken := accessToken;
      this.describe := describe;
    }

    /** Every ARN goes to its first place in the list; the other slots stay as they were. */
    method Restrict(arns: seq<string>)
      modifies this
      ensures Scoped(arns, old(accessToken), accessToken) && Scoped(arns, old(describe), describe)
    {
      for k := 0 to |arns|
        invariant ScopedUpTo(arns, k, old(accessToken), accessToken) && ScopedUpTo(arns, k, old(describe), describe)
      {
        var arn := arns[k];
        StoreNext(arns, k, old(accessToken), accessToken);
        StoreNext(arns, k, old(describe), describe);
        accessToken := Store(accessToken, IndexOf(arns, arn), arn);
        describe := Store(describe, IndexOf(arns, arn), arn);
      }
    }
  }

  lemma FirstOrEarlier(arns: seq<string>, k: nat)
    requires k < |arns|
    ensures IndexOf(arns, arns[k]) <= k && IsFirst(arns, IndexOf(arns, arns[k]))
    ensures IsFirst(arns, k) <==> IndexOf(arns, arns[k]) == k
  {
  }

  ghost predicate ScopedUpTo(arns: seq<string>, k: nat, before: seq<Option<string>>, after: seq<Option<string>>)
    requires k <= |arns|
  {
    forall j: nat :: Slot(after, j) == if j < k && IsFirst(arns, j) then Some(arns[j]) else Slot(before, j)
  }

  lemma StoreNext(arns: seq<string>, k: nat, before: seq<Option<string>>, after: seq<Option<string>>)
    requires k < |arns| && ScopedUpTo(arns, k, before, after)
    ensures ScopedUpTo(arns, k + 1, before, Store(after, IndexOf(arns, arns[k]), arns[k]))
  {
    var i := IndexOf(arns, arns[k]);
    var stored := Store(after, i, arns[k]);
    FirstOrEarlier(arns, k);
    forall j: nat
      ensures Slot(stored, j) == if j < k + 1 && IsFirst(arns, j) then Some(arns[j]) else Slot(before, j)
    {
      if j == k && i < k {
        assert !IsFirst(arns, j);
      }
    }
  }

  ghost predicate Scoped(arns: seq<string>, before: seq<Option<string>>, after: seq<Option<string>>) {
    ScopedUpTo(arns, |arns|, before, after)
  }

  /** From the template's one placeholder: the array then names exactly the ARNs of the list, each once, and
      the placeholder is gone iff the list is not empty. */
  lemma ScopedNamesExactly(arns: seq<string>, placeholder: string, after: seq<Option<string>>)
    requires placeholder !in arns && Scoped(arns, [Some(placeholder)], after)
    ensures forall a :: a in arns <==> a != placeholder && exists j: nat :: Slot(after, j) == Some(a)
    ensures forall i: nat, j: nat :: i < j && Slot(after, i).Some? && Slot(after, j).Some? ==> Slot(after, i) != Slot(after, j)
    ensures (forall j: nat :: Slot(after, j) != Some(placeholder)) <==> arns != []
  {
    forall a | a in arns ensures exists j: nat :: Slot(after, j) == Some(a) {
      FirstOrEarlier(arns, IndexOf(arns, a));
      assert Slot(after, IndexOf(arns, a)) == Some(a);
    }
    if arns == [] {
      assert Slot(after, 0) == Some(placeholder);
    } else {
      assert IsFirst(arns, 0);
    }
    forall i: nat, j: nat | i < j && Slot(after, i).Some? && Slot(after, j).Some?
      ensures Slot(after, i) != Slot(after, j)
    {
      if i < |arns| && j < |arns| {
        assert IsFirst(arns, j) ==> arns[i] != arns[j];
      }
    }
  }

  /** An undefined slot before a filled one: it becomes null in the policy document. */
  ghost predicate HasHole(after: seq<Option<string>>) {
    exists i: nat, j: nat :: i < j && Slot(after, i).None? && Slot(after, j).Some?
  }

  predicate RepeatBeforeFirst(arns: seq<string>) {
    exists i, j :: 0 <= i < j < |arns| && !IsFirst(arns, i) && IsFirst(arns, j)
  }

  /** From the template's one placeholder: the array has a hole iff the list repeats an ARN before a new one. */
  lemma HoleIff(arns: seq<string>, placeholder: string, after: seq<Option<string>>)
    requires Scoped(arns, [Some(placeholder)], after)
    ensures HasHole(after) <==> RepeatBeforeFirst(arns)
  {
    if i: nat, j: nat :| i < j && Slot(after, i).None? && Slot(after, j).Some? {
      assert j < |arns| && IsFirst(arns, j);
      assert !IsFirst(arns, i);
    }
    if i, j :| 0 <= i < j < |arns| && !IsFirst(arns, i) && IsFirst(arns, j) {
      assert i > 0;
      assert Slot(after, i).None? && Slot(after, j).Some?;
    }
  }

  // ---------- The policy of one user ----------

  /** Distinct endpoints have distinct ARNs. */
  ghost predicate Injective(text: Arn -> string) {
    forall a, b :: text(a) == text(b) ==> a == b
  }

  function Texts(text: Arn -> string, arns: seq<Arn>): seq<string> {
    Map(text, arns)
  }

  predicate FirstNamed(es: seq<Endpoint>, j: nat)
    requires j < |es|
  {
    forall i :: 0 <= i < j ==> EndpointName(es[i]) != EndpointName(es[j])
  }

  lemma FirstByName(c: Cache, es: seq<Endpoint>, arns: seq<Arn>, text: Arn -> string, j: nat)
    requires OneEach(c) && Answers(c, es, arns) && Injective(text) && j < |es|
    ensures IsFirst(Texts(text, arns), j) <==> FirstNamed(es, j)
  {
    forall i | 0 <= i < j
      ensures Texts(text, arns)[i] == Texts(text, arns)[j] <==> EndpointName(es[i]) == EndpointName(es[j])
    {
      if arns[i] == arns[j] {
        SameArnSameName(c, EndpointName(es[i]), EndpointName(es[j]));
      }
    }
  }

  /** The policy written for a user has a hole iff, among the endpoints asked for in the call up to that user, a
      repeated name comes before a new one. */
  lemma UserPolicyHoleIff(c: Cache, users: seq<User>, u: nat, text: Arn -> string, placeholder: string,
                          after: seq<Option<string>>)
    requires OneEach(c) && u < |users| && Injective(text)
    requires Scoped(Texts(text, ListsFor(c, users)[u]), [Some(placeholder)], after)
    ensures var es := EndpointsOf(users[..u + 1]);
            HasHole(after) <==> exists i, j :: 0 <= i < j < |es| && !FirstNamed(es, i) && FirstNamed(es, j)
  {
    var es := EndpointsOf(users[..u + 1]);
    ListsForAt(c, users, u);
    PushedAnswers(c, es);
    KeepsOneEach(c, es);
    var arns := Pushed(c, es);
    forall j | 0 <= j < |es| ensures IsFirst(Texts(text, arns), j) <==> FirstNamed(es, j) {
      FirstByName(AddAll(c, es), es, arns, text, j);
    }
    HoleIff(Texts(text, arns), placeholder, after);
  }

  /** It does happen: two users share an endpoint and a third asks for another. */
  lemma ThirdUserGetsHole(text: Arn -> string, placeholder: string, after: seq<Option<string>>)
    requires Injective(text)
    requires var x, y := Endpoint(Some("x"), ""), Endpoint(Some("y"), "");
             var users := [User("a", "USER", [x]), User("b", "USER", [x]), User("c", "USER", [y])];
             Scoped(Texts(text, ListsFor(NO_ENDPOINTS, users)[2]), [Some(placeholder)], after)
    ensures Slot(after, 0) == Some(text(0)) && Slot(after, 1) == None && Slot(after, 2) == Some(text(1))
  {
    var x, y := Endpoint(Some("x"), ""), Endpoint(Some("y"), "");
    var a, b, c := User("a", "USER", [x]), User("b", "USER", [x]), User("c", "USER", [y]);
    var users := [a, b, c];
    ThreeUsers(x, y, a, b, c);
    ListsForAt(NO_ENDPOINTS, users, 2);
    Prefixes(users, 3, 3);
    var arns := Texts(text, [0, 0, 1]);
    assert arns == [text(0), text(0), text(1)];
    assert IsFirst(arns, 0) && !IsFirst(arns, 1) && IsFirst(arns, 2);
  }

  lemma ThreeUsers(x: Endpoint, y: Endpoint, a: User, b: User, c: User)
    requires EndpointName(x) == "x" && EndpointName(y) == "y"
    requires a.endpoints == [x] && b.endpoints == [x] && c.endpoints == [y]
    ensures EndpointsOf([a, b, c]) == [x, x, y] && Pushed(NO_ENDPOINTS, [x, x, y]) == [0, 0, 1]
  {
    assert [a, b, c][..2] == [a, b] && [a, b][..1] == [a] && [a][..0] == [];
    assert EndpointsOf([a]) == [x];
    assert EndpointsOf([a, b]) == [x, x];
    ThreeEndpoints(x, y);
  }

  lemma ThreeEndpoints(x: Endpoint, y: Endpoint)
    requires EndpointName(x) == "x" && EndpointName(y) == "y"
    ensures Pushed(NO_ENDPOINTS, [x, x, y]) == [0, 0, 1]
  {
    assert [x, x, y][..2] == [x, x] && [x, x][..1] == [x] && [x][..0] == [];
    var one := AddOne(NO_ENDPOINTS, x);
    assert AddAll(NO_ENDPOINTS, [x]) == one && one.mapping["x"] == 0 && one.created == ["x"];
    assert AddAll(NO_ENDPOINTS, [x, x]) == AddOne(one, x) == one;
    assert "x"[0] != "y"[0];
    assert AddAll(NO_ENDPOINTS, [x, x, y]) == AddOne(one, y);
    assert AddOne(one, y).mapping["y"] == 1;
    assert Pushed(NO_ENDPOINTS, [x]) == [0];
    assert Pushed(NO_ENDPOINTS, [x, x]) == [0, 0];
  }
}
