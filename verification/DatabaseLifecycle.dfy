/** Creating and dropping a database of the adapter's second interface version. A database is a name
    prefix: its users are named after it, creation checks that no existing user clashes with it, and
    dropping it removes whatever starts with it. Every request to the cluster may stay without an answer
    or be answered with an error status, and may have been applied all the same. Looking up and writing a
    user takes a good status; creating an index, writing metadata and deleting take any answer. */
module DatabaseLifecycle {
  import opened Basics
  import UsersRecovery

  datatype Kind =
    UserKind | IndexKind | MetadataKind | TemplateKind | IndexTemplateKind | AliasKind | PrefixKind | OtherKind

  datatype Resource = Resource(kind: Kind, name: string)

  /** What the security plugin stores of a user: the resource prefix attribute and the role. */
  datatype User = User(resourcePrefix: string, role: string)

  type Users = map<string, User>

  datatype Io = Ok | ErrorStatus(applied: bool) | NoAnswer(applied: bool)

  /** What a request needs in order to be taken for done. */
  datatype Need = Answer | Success

  predicate Meets(io: Io, need: Need) {
    io.Ok? || (need.Answer? && io.ErrorStatus?)
  }

  /** The i-th reply to come; once the replies are used up, requests succeed. */
  function ReplyAt(replies: seq<Io>, i: nat): Io {
    if i < |replies| then replies[i] else Ok
  }

  function After(replies: seq<Io>, n: nat): seq<Io> {
    if n <= |replies| then replies[n..] else []
  }

  predicate AllMet(replies: seq<Io>, needs: seq<Need>) {
    forall i | 0 <= i < |needs| :: Meets(ReplyAt(replies, i), needs[i])
  }

  /** After good replies of `start` to these needs, `now` is what is left. */
  predicate Used(start: seq<Io>, now: seq<Io>, needs: seq<Need>) {
    AllMet(start, needs) && now == After(start, |needs|)
  }

  function Successes(n: nat): seq<Need> {
    seq(n, _ => Success)
  }

  lemma ReplyAfter(replies: seq<Io>, m: nat, i: nat)
    ensures ReplyAt(After(replies, m), i) == ReplyAt(replies, m + i)
  {
  }

  lemma NotAllMet(replies: seq<Io>, needs: seq<Need>, all: seq<Need>)
    requires needs <= all && !AllMet(replies, needs)
    ensures !AllMet(replies, all)
  {
    var i :| 0 <= i < |needs| && !Meets(ReplyAt(replies, i), needs[i]);
    assert all[i] == needs[i];
  }

  lemma TwoSuccesses(replies: seq<Io>)
    ensures AllMet(replies, Successes(2)) <==> ReplyAt(replies, 0).Ok? && ReplyAt(After(replies, 1), 0).Ok?
    ensures After(After(replies, 1), 1) == After(replies, 2)
  {
    ReplyAfter(replies, 1, 0);
    assert Successes(2)[0] == Success && Successes(2)[1] == Success;
  }

  lemma OneAnswer(replies: seq<Io>)
    ensures AllMet(replies, [Answer]) <==> !ReplyAt(replies, 0).NoAnswer?
  {
    assert [Answer][0] == Answer;
  }

  lemma MoreSuccesses(m: nat, n: nat)
    ensures Successes(m) + Successes(n) == Successes(m + n)
  {
  }

  /** More needs met by further replies. */
  lemma UsedMore(start: seq<Io>, now: seq<Io>, needs: seq<Need>, more: seq<Need>)
    requires Used(start, now, needs)
    ensures AllMet(now, more) <==> AllMet(start, needs + more)
    ensures After(now, |more|) == After(start, |needs + more|)
  {
    var n, all := |needs|, needs + more;
    forall i: nat | i < |more|
      ensures ReplyAt(now, i) == ReplyAt(start, n + i) && all[n + i] == more[i]
    {
      ReplyAfter(start, n, i);
    }
    if AllMet(now, more) {
      forall i | 0 <= i < |all|
        ensures Meets(ReplyAt(start, i), all[i])
      {
        if i >= n {
          assert all[n + (i - n)] == more[i - n] && Meets(ReplyAt(now, i - n), more[i - n]);
        }
      }
    }
    if AllMet(start, all) {
      forall i | 0 <= i < |more|
        ensures Meets(ReplyAt(now, i), more[i])
      {
        assert Meets(ReplyAt(start, n + i), all[n + i]);
      }
    }
  }

  /** The answer to a listing of all users. */
  datatype Listing = Listed | NotFound | OtherStatus | NoAnswer

  // ----- The check -----

  predicate Clashes(name: string, user: User, prefix: string) {
    HasPrefix(name, prefix) || (user.resourcePrefix != "" && HasPrefix(user.resourcePrefix, prefix))
  }

  predicate Unique(users: Users, prefix: string) {
    forall name <- users :: !Clashes(name, users[name], prefix)
  }

  /** A prefix is taken once a user's name starts with it, or the prefix the user belongs to does. */
  lemma TakenExactly(users: Users, prefix: string)
    ensures !Unique(users, prefix) <==>
            exists name <- users ::
              || HasPrefix(name, prefix)
              || (users[name].resourcePrefix != "" && HasPrefix(users[name].resourcePrefix, prefix))
  {
  }

  // ----- Users created for a database -----

  const ROLE_TYPES := ["readonly", "dml", "admin", "ism"]

  datatype Connection = Connection(username: string, role: string)

  function Username(prefix: string, uuid: string): string {
    prefix + "_" + uuid
  }

  /** The users of n creations in a row, the identifiers being taken from position `from` on. */
  function Connections(prefix: string, uuid: nat -> string, from: nat, n: nat): seq<Connection> {
    seq(n, i requires 0 <= i < n => Connection(Username(prefix, uuid(from + i)), ROLE_TYPES[i % 4]))
  }

  lemma RolesDistinct(i: nat, j: nat)
    requires i < j < |ROLE_TYPES|
    ensures ROLE_TYPES[i] != ROLE_TYPES[j]
  {
    assert ROLE_TYPES[0][0] == 'r' && ROLE_TYPES[1][0] == 'd' && ROLE_TYPES[2][0] == 'a' && ROLE_TYPES[3][0] == 'i';
  }

  /** One user for each role type. */
  lemma OneUserPerRole(prefix: string, uuid: nat -> string, from: nat, role: string)
    requires role in ROLE_TYPES
    ensures exists i | 0 <= i < 4 :: Connections(prefix, uuid, from, 4)[i].role == role
    ensures forall i, j | 0 <= i < j < 4 ::
              Connections(prefix, uuid, from, 4)[i].role != Connections(prefix, uuid, from, 4)[j].role
  {
    var all := Connections(prefix, uuid, from, 4);
    forall i | 0 <= i < 4
      ensures all[i].role == ROLE_TYPES[i]
    {
    }
    var k :| 0 <= k < |ROLE_TYPES| && ROLE_TYPES[k] == role;
    assert all[k].role == role;
    forall i, j | 0 <= i < j < 4
      ensures all[i].role != all[j].role
    {
      RolesDistinct(i, j);
    }
  }

  function AddUsers(users: Users, prefix: string, connections: seq<Connection>): Users {
    if connections == [] then users
    else
      var last := connections[|connections| - 1];
      AddUsers(users, prefix, connections[..|connections| - 1])[last.username := User(prefix, last.role)]
  }

  predicate AllStartWith(connections: seq<Connection>, prefix: string) {
    forall c <- connections :: HasPrefix(c.username, prefix)
  }

  lemma ConnectionsStartWith(prefix: string, uuid: nat -> string, from: nat, n: nat)
    ensures AllStartWith(Connections(prefix, uuid, from, n), prefix)
  {
    forall i | 0 <= i < n
      ensures HasPrefix(Connections(prefix, uuid, from, n)[i].username, prefix)
    {
      var rest := "_" + uuid(from + i);
      assert Username(prefix, uuid(from + i)) == prefix + rest;
    }
  }

  /** Users that do not start with the prefix are neither added nor changed. */
  lemma {:induction false} AddUsersOutside(users: Users, prefix: string, connections: seq<Connection>, name: string)
    requires AllStartWith(connections, prefix) && !HasPrefix(name, prefix)
    ensures name in AddUsers(users, prefix, connections) <==> name in users
    ensures name in users ==> AddUsers(users, prefix, connections)[name] == users[name]
  {
    if connections != [] {
      assert connections[|connections| - 1] in connections;
      assert forall c <- connections[..|connections| - 1] :: c in connections;
      AddUsersOutside(users, prefix, connections[..|connections| - 1], name);
    }
  }

  // ----- Dropping -----

  datatype Report = Report(kind: Kind, name: string, deleted: bool)

  function OfKind(resources: seq<Resource>, kind: Kind): (r: seq<Resource>) {
    if resources == [] then []
    else (if resources[0].kind == kind then [resources[0]] else []) + OfKind(resources[1..], kind)
  }

  const DELETION_ORDER := [UserKind, IndexKind, MetadataKind, TemplateKind, IndexTemplateKind, AliasKind]

  /** The resources grouped by the deletable kinds, each group in its old order. */
  function Grouped(resources: seq<Resource>, kinds: seq<Kind>): seq<Resource> {
    if kinds == [] then [] else Grouped(resources, kinds[..|kinds| - 1]) + OfKind(resources, kinds[|kinds| - 1])
  }

  function Reported(report: seq<Report>): seq<Resource> {
    seq(|report|, i requires 0 <= i < |report| => Resource(report[i].kind, report[i].name))
  }

  /** What a prefix stands for, besides users: patterns for names and the metadata document. */
  function PrefixPatterns(prefix: string): seq<Resource> {
    [Resource(IndexKind, prefix + "*"), Resource(MetadataKind, prefix), Resource(TemplateKind, prefix + "*"),
     Resource(IndexTemplateKind, prefix + "*"), Resource(AliasKind, prefix + "*")]
  }

  /** A pattern of a name and a final star stands for the names that start so; another pattern for itself. */
  predicate Matches(pattern: string, name: string) {
    if pattern != "" && pattern[|pattern| - 1] == '*' then HasPrefix(name, pattern[..|pattern| - 1])
    else name == pattern
  }

  /** For each kind that is deleted by pattern, the expansion of a prefix has one resource, and it stands for
      exactly the names that start with the prefix; the metadata document is the prefix itself. */
  lemma PatternsCoverPrefix(prefix: string, kind: Kind, name: string)
    requires kind in [IndexKind, TemplateKind, IndexTemplateKind, AliasKind]
    ensures (exists r <- PrefixPatterns(prefix) :: r.kind == kind && Matches(r.name, name)) <==> HasPrefix(name, prefix)
    ensures forall r <- PrefixPatterns(prefix) :: r.kind == MetadataKind ==> r.name == prefix
    ensures Resource(MetadataKind, prefix) in PrefixPatterns(prefix)
  {
    var star := prefix + "*";
    assert star[|star| - 1] == '*' && star[..|star| - 1] == prefix;
    var p := PrefixPatterns(prefix);
    assert p[0].kind == IndexKind && p[1].kind == MetadataKind && p[2].kind == TemplateKind;
    assert p[3].kind == IndexTemplateKind && p[4].kind == AliasKind;
    assert forall r <- p :: r.kind == kind ==> r.name == star;
    assert Resource(kind, star) in p;
  }

  predicate Requested(resources: seq<Resource>, name: string) {
    Resource(UserKind, name) in resources || exists r <- resources :: r.kind == PrefixKind && HasPrefix(name, r.name)
  }

  lemma {:induction false} OfKindCount(resources: seq<Resource>, kind: Kind, r: Resource)
    ensures multiset(OfKind(resources, kind))[r] == if r.kind == kind then multiset(resources)[r] else 0
  {
    if resources != [] {
      OfKindCount(resources[1..], kind, r);
      assert resources == [resources[0]] + resources[1..];
    }
  }

  /** Grouping loses no deletable resource and adds none. */
  lemma GroupedKeepsAll(resources: seq<Resource>, r: Resource)
    ensures multiset(Grouped(resources, DELETION_ORDER))[r]
         == if r.kind in DELETION_ORDER then multiset(resources)[r] else 0
  {
    GroupedCount(resources, DELETION_ORDER, r);
  }

  lemma {:induction false} GroupedCount(resources: seq<Resource>, kinds: seq<Kind>, r: Resource)
    requires forall i, j | 0 <= i < j < |kinds| :: kinds[i] != kinds[j]
    ensures multiset(Grouped(resources, kinds))[r] == if r.kind in kinds then multiset(resources)[r] else 0
  {
    if kinds != [] {
      var front, last := kinds[..|kinds| - 1], kinds[|kinds| - 1];
      assert kinds == front + [last];
      GroupedCount(resources, front, r);
      OfKindCount(resources, last, r);
    }
  }

  lemma {:induction false} OfKindMember(resources: seq<Resource>, kind: Kind, r: Resource)
    ensures r in OfKind(resources, kind) <==> r in resources && r.kind == kind
  {
    if resources != [] {
      OfKindMember(resources[1..], kind, r);
    }
  }

  lemma {:induction false} AddUsersAppend(users: Users, prefix: string, a: seq<Connection>, b: seq<Connection>)
    ensures AddUsers(users, prefix, a + b) == AddUsers(AddUsers(users, prefix, a), prefix, b)
    decreases |b|
  {
    if b == [] {
      assert a + b == a;
    } else {
      var n := |b| - 1;
      assert (a + b)[..|a + b| - 1] == a + b[..n] && (a + b)[|a + b| - 1] == b[n];
      AddUsersAppend(users, prefix, a, b[..n]);
    }
  }

  lemma FourMore(prefix: string, uuid: nat -> string, from: nat, m: nat)
    ensures Connections(prefix, uuid, from, 4 * m + 4)
         == Connections(prefix, uuid, from, 4 * m) + Connections(prefix, uuid, from + 4 * m, 4)
  {
    var whole := Connections(prefix, uuid, from, 4 * m + 4);
    var parts := Connections(prefix, uuid, from, 4 * m) + Connections(prefix, uuid, from + 4 * m, 4);
    forall i | 0 <= i < 4 * m + 4
      ensures whole[i] == parts[i]
    {
      if i >= 4 * m {
        var j := i - 4 * m;
        assert i % 4 == j % 4 && from + i == from + 4 * m + j;
      }
    }
  }

  lemma ConnectionsNext(prefix: string, uuid: nat -> string, from: nat, n: nat)
    requires n < 4
    ensures Connections(prefix, uuid, from, n + 1)
         == Connections(prefix, uuid, from, n) + [Connection(Username(prefix, uuid(from + n)), ROLE_TYPES[n])]
  {
  }

  lemma AddUsersSnoc(users: Users, prefix: string, connections: seq<Connection>, next: Connection)
    ensures AddUsers(users, prefix, connections + [next])
         == AddUsers(users, prefix, connections)[next.username := User(prefix, next.role)]
  {
    assert (connections + [next])[..|connections|] == connections;
  }

  predicate SameUser(before: Users, after: Users, name: string) {
    (name in before <==> name in after) && (name in before ==> after[name] == before[name])
  }

  /** Users that do not start with the prefix are as before. */
  ghost predicate OutsideSame(before: Users, after: Users, prefix: string) {
    forall name: string | !HasPrefix(name, prefix) :: SameUser(before, after, name)
  }

  lemma AddUsersOutsideSame(users: Users, prefix: string, connections: seq<Connection>)
    requires AllStartWith(connections, prefix)
    ensures OutsideSame(users, AddUsers(users, prefix, connections), prefix)
  {
    forall name: string | !HasPrefix(name, prefix)
      ensures SameUser(users, AddUsers(users, prefix, connections), name)
    {
      AddUsersOutside(users, prefix, connections, name);
    }
  }

  lemma ConnectionsOutsideSame(users: Users, prefix: string, uuid: nat -> string, from: nat, n: nat)
    ensures OutsideSame(users, AddUsers(users, prefix, Connections(prefix, uuid, from, n)), prefix)
  {
    ConnectionsStartWith(prefix, uuid, from, n);
    AddUsersOutsideSame(users, prefix, Connections(prefix, uuid, from, n));
  }

  lemma OutsideSameTransitively(a: Users, b: Users, c: Users, prefix: string)
    requires OutsideSame(a, b, prefix) && OutsideSame(b, c, prefix)
    ensures OutsideSame(a, c, prefix)
  {
    forall name: string | !HasPrefix(name, prefix)
      ensures SameUser(a, c, name)
    {
      assert SameUser(a, b, name) && SameUser(b, c, name);
    }
  }

  // ----- Creation requests -----

  /** `derived` is the prefix made from namespace and microservice name, or generated; `metadata` is
      whether the request carries any. */
  datatype Request = Request(resourcePrefix: bool, namePrefix: string, derived: Option<string>,
    createOnly: seq<Kind>, indexName: string, metadata: bool)

  /** `NothingReturned` is an answer without error and without content. */
  datatype Creation = Refused | NothingReturned | Created(prefix: string, resources: seq<Resource>,
    connections: seq<Connection>)

  predicate Forbidden(prefix: string) {
    HasPrefix(prefix, ".") || '*' in prefix
  }

  function PrefixOf(request: Request): Option<string> {
    var prefix := if request.namePrefix != "" then Some(request.namePrefix) else request.derived;
    if prefix.Some? && !Forbidden(prefix.value) then prefix else None
  }

  /** The prefix of the request, else the derived one, unless it starts with a dot or has a star. */
  lemma PrefixOfExactly(request: Request, prefix: string)
    ensures PrefixOf(request) == Some(prefix) <==>
            && (if request.namePrefix == "" then request.derived == Some(prefix) else request.namePrefix == prefix)
            && (prefix == "" || prefix[0] != '.') && '*' !in prefix
  {
    assert "."[0] == '.';
    assert prefix != "" && prefix[0] == '.' ==> "." <= prefix;
  }

  function ToCreate(request: Request): seq<Kind> {
    if request.createOnly == [] then [UserKind] else request.createOnly
  }

  function EntryOf(kind: Kind): nat {
    if kind == UserKind then 1 else 0
  }

  /** The entries for users. */
  function Entries(kinds: seq<Kind>): nat {
    if kinds == [] then 0 else Entries(kinds[..|kinds| - 1]) + EntryOf(kinds[|kinds| - 1])
  }

  lemma EntriesNext(kinds: seq<Kind>, i: nat)
    requires i < |kinds|
    ensures Entries(kinds[..i + 1]) == Entries(kinds[..i]) + EntryOf(kinds[i])
  {
    assert kinds[..i + 1][..i] == kinds[..i];
  }

  /** What the requests of one entry need: an answer for an index, two successes for each of four users. */
  function NeedsOf(kind: Kind): seq<Need> {
    if kind == IndexKind then [Answer] else if kind == UserKind then Successes(8) else []
  }

  function Needs(kinds: seq<Kind>): seq<Need> {
    if kinds == [] then [] else Needs(kinds[..|kinds| - 1]) + NeedsOf(kinds[|kinds| - 1])
  }

  lemma {:induction false} NeedsGrow(kinds: seq<Kind>, i: nat)
    requires i <= |kinds|
    ensures Needs(kinds[..i]) <= Needs(kinds)
    decreases |kinds|
  {
    if i < |kinds| {
      assert kinds[..|kinds| - 1][..i] == kinds[..i];
      NeedsGrow(kinds[..|kinds| - 1], i);
    } else {
      assert kinds[..i] == kinds;
    }
  }

  lemma NeedsNext(kinds: seq<Kind>, i: nat)
    requires i < |kinds|
    ensures Needs(kinds[..i + 1]) == Needs(kinds[..i]) + NeedsOf(kinds[i])
  {
    assert kinds[..i + 1][..i] == kinds[..i];
  }

  /** The next entry decides whether all needs are still met. */
  lemma UsedByEntry(start: seq<Io>, now: seq<Io>, kinds: seq<Kind>, i: nat)
    requires i < |kinds| && Used(start, now, Needs(kinds[..i]))
    ensures AllMet(now, NeedsOf(kinds[i])) ==> Used(start, After(now, |NeedsOf(kinds[i])|), Needs(kinds[..i + 1]))
    ensures !AllMet(now, NeedsOf(kinds[i])) ==> !AllMet(start, Needs(kinds))
  {
    var needs, more := Needs(kinds[..i]), NeedsOf(kinds[i]);
    NeedsNext(kinds, i);
    UsedMore(start, now, needs, more);
    NeedsGrow(kinds, i + 1);
    if !AllMet(now, more) {
      NotAllMet(start, needs + more, Needs(kinds));
    }
  }

  function MetadataNeeds(request: Request): seq<Need> {
    if request.metadata then [Answer] else []
  }

  /** Every request of a creation gets what it needs. */
  predicate EverythingMet(request: Request, replies: seq<Io>) {
    AllMet(replies, Needs(ToCreate(request)) + MetadataNeeds(request))
  }

  /** Everything asked for is created, writing the metadata stays without an answer, and deleting the new
      index gets one. */
  predicate OnlyIndexUndone(request: Request, replies: seq<Io>) {
    var n := |Needs(ToCreate(request))|;
    && CreatesIndex(request) && request.metadata && AllMet(replies, Needs(ToCreate(request)))
    && ReplyAt(replies, n).NoAnswer? && !ReplyAt(replies, n + 1).NoAnswer?
  }

  predicate Passes(users: Users, listing: Listing, prefix: string) {
    listing.NotFound? || listing.OtherStatus? || (listing.Listed? && Unique(users, prefix))
  }

  /** The request is well formed and its prefix passes the check. */
  predicate Accepted(request: Request, users: Users, listing: Listing) {
    request.resourcePrefix && PrefixOf(request).Some? && Passes(users, listing, PrefixOf(request).value)
  }

  predicate CreatesIndex(request: Request) {
    IndexKind in ToCreate(request) && request.indexName != ""
  }

  /** The connections a request is answered with, the identifiers being taken from `from` on. */
  function ConnectionsOf(request: Request, uuid: nat -> string, from: nat): seq<Connection>
    requires PrefixOf(request).Some?
  {
    Connections(PrefixOf(request).value, uuid, from, 4 * Entries(ToCreate(request)))
  }

  /** A request that does not say what to create gets four users and no index. */
  lemma CreatesUsersByDefault(request: Request, uuid: nat -> string, from: nat)
    requires request.createOnly == [] && PrefixOf(request).Some?
    ensures ConnectionsOf(request, uuid, from) == Connections(PrefixOf(request).value, uuid, from, 4)
    ensures Needs(ToCreate(request)) == Successes(8) && !CreatesIndex(request)
  {
    assert [UserKind][..0] == [] && Entries([UserKind]) == 1 && [] + Successes(8) == Successes(8);
  }

  function UserResources(connections: seq<Connection>): seq<Resource> {
    seq(|connections|, i requires 0 <= i < |connections| => Resource(UserKind, connections[i].username))
  }

  /** The user resources are those of the connections, in order, and there is no prefix among them. */
  predicate OnlyUsers(resources: seq<Resource>, connections: seq<Connection>) {
    && OfKind(resources, UserKind) == UserResources(connections)
    && (forall r <- resources :: r.kind != PrefixKind)
  }

  lemma {:induction false} OfKindAppend(a: seq<Resource>, b: seq<Resource>, kind: Kind)
    ensures OfKind(a + b, kind) == OfKind(a, kind) + OfKind(b, kind)
  {
    if a == [] {
      assert a + b == b;
    } else {
      assert (a + b)[0] == a[0] && (a + b)[1..] == a[1..] + b;
      OfKindAppend(a[1..], b, kind);
      AppendAssociates(if a[0].kind == kind then [a[0]] else [], OfKind(a[1..], kind), OfKind(b, kind));
    }
  }

  lemma {:induction false} AllOfKind(resources: seq<Resource>, kind: Kind)
    requires forall r <- resources :: r.kind == kind
    ensures OfKind(resources, kind) == resources
  {
    if resources != [] {
      assert forall r <- resources[1..] :: r in resources;
      AllOfKind(resources[1..], kind);
      assert resources == [resources[0]] + resources[1..];
    }
  }

  lemma UserResourcesAppend(resources: seq<Resource>, connections: seq<Connection>, more: seq<Connection>)
    requires OnlyUsers(resources, connections)
    ensures OnlyUsers(resources + UserResources(more), connections + more)
  {
    OfKindAppend(resources, UserResources(more), UserKind);
    AllOfKind(UserResources(more), UserKind);
    assert UserResources(connections + more) == UserResources(connections) + UserResources(more);
  }

  lemma OneMoreResource(resources: seq<Resource>, connections: seq<Connection>, r: Resource)
    requires OnlyUsers(resources, connections) && r.kind != UserKind && r.kind != PrefixKind
    ensures OnlyUsers(resources + [r], connections)
  {
    OfKindAppend(resources, [r], UserKind);
    assert [r][1..] == [] && OfKind([r], UserKind) == [];
  }

  /** A created database lists its prefix, and as users exactly those of its connections. */
  predicate CreatedResources(result: Creation)
    requires result.Created?
  {
    && result.resources != [] && result.resources[0] == Resource(PrefixKind, result.prefix)
    && OnlyUsers(result.resources[1..], result.connections)
  }

  /** Besides users only the index is listed, and it is if one was asked for. */
  predicate ListsIndex(resources: seq<Resource>, kinds: seq<Kind>, indexName: string) {
    && (forall r <- resources :: r.kind == UserKind || r == Resource(IndexKind, indexName))
    && (Resource(IndexKind, indexName) in resources <==> IndexKind in kinds)
  }

  lemma ListsIndexNext(resources: seq<Resource>, kinds: seq<Kind>, i: nat, indexName: string, more: seq<Resource>)
    requires i < |kinds| && ListsIndex(resources, kinds[..i], indexName)
    requires if kinds[i] == IndexKind then more == [Resource(IndexKind, indexName)]
             else forall r <- more :: r.kind == UserKind
    ensures ListsIndex(resources + more, kinds[..i + 1], indexName)
  {
    assert kinds[..i + 1] == kinds[..i] + [kinds[i]];
  }

  /** The last resource is the metadata document, named like the index if there is one; those between it and
      the prefix are the users and the index. */
  predicate RestListed(request: Request, result: Creation)
    requires result.Created?
  {
    var n := |result.resources| - 1;
    && n > 0 && ListsIndex(result.resources[1..n], ToCreate(request), request.indexName)
    && result.resources[n] == Resource(MetadataKind, if IndexKind in request.createOnly && request.indexName != ""
                                                     then request.indexName else result.prefix)
  }

  /** The first n users are stored and handed out. */
  predicate UsersCreated(prefix: string, uuid: nat -> string, from: nat, n: nat, before: Users, users: Users,
                         connections: seq<Connection>)
  {
    connections == Connections(prefix, uuid, from, n) && users == AddUsers(before, prefix, connections)
  }

  lemma OneMoreUser(prefix: string, uuid: nat -> string, from: nat, n: nat, before: Users, users: Users,
                    connections: seq<Connection>, next: Connection)
    requires n < 4 && UsersCreated(prefix, uuid, from, n, before, users, connections)
    requires next == Connection(Username(prefix, uuid(from + n)), ROLE_TYPES[n])
    ensures UsersCreated(prefix, uuid, from, n + 1, before, users[next.username := User(prefix, next.role)],
                         connections + [next])
  {
    assert connections + [next] == Connections(prefix, uuid, from, n + 1) by {
      ConnectionsNext(prefix, uuid, from, n);
    }
    AddUsersSnoc(before, prefix, connections, next);
  }

  lemma UsersCreatedOutside(prefix: string, uuid: nat -> string, from: nat, n: nat, before: Users, users: Users,
                            connections: seq<Connection>)
    requires UsersCreated(prefix, uuid, from, n, before, users, connections)
    ensures OutsideSame(before, users, prefix)
  {
    ConnectionsOutsideSame(before, prefix, uuid, from, n);
  }

  /** After m rounds of creating users: what is stored, listed and handed out agree. */
  predicate InCreation(prefix: string, uuid: nat -> string, from: nat, m: nat, before: Users, users: Users,
                       resources: seq<Resource>, connections: seq<Connection>)
  {
    && connections == Connections(prefix, uuid, from, 4 * m)
    && users == AddUsers(before, prefix, connections)
    && OnlyUsers(resources, connections)
  }

  lemma CreationBegins(prefix: string, uuid: nat -> string, from: nat, users: Users)
    ensures InCreation(prefix, uuid, from, 0, users, users, [], [])
  {
  }

  lemma CreationOfIndex(prefix: string, uuid: nat -> string, from: nat, m: nat, before: Users, users: Users,
                        resources: seq<Resource>, connections: seq<Connection>, indexName: string)
    requires InCreation(prefix, uuid, from, m, before, users, resources, connections)
    ensures InCreation(prefix, uuid, from, m, before, users, resources + [Resource(IndexKind, indexName)], connections)
  {
    OneMoreResource(resources, connections, Resource(IndexKind, indexName));
  }

  lemma CreationGoesOn(prefix: string, uuid: nat -> string, from: nat, m: nat, before: Users, users: Users,
                       resources: seq<Resource>, connections: seq<Connection>, more: seq<Connection>)
    requires InCreation(prefix, uuid, from, m, before, users, resources, connections)
    requires more == Connections(prefix, uuid, from + 4 * m, 4)
    ensures InCreation(prefix, uuid, from, m + 1, before, AddUsers(users, prefix, more),
                       resources + UserResources(more), connections + more)
  {
    FourMore(prefix, uuid, from, m);
    AddUsersAppend(before, prefix, connections, more);
    UserResourcesAppend(resources, connections, more);
  }

  lemma CreationOutsideSame(prefix: string, uuid: nat -> string, from: nat, m: nat, before: Users, users: Users,
                            resources: seq<Resource>, connections: seq<Connection>)
    requires InCreation(prefix, uuid, from, m, before, users, resources, connections)
    ensures OutsideSame(before, users, prefix)
  {
    ConnectionsOutsideSame(before, prefix, uuid, from, 4 * m);
  }

  // ----- Deleting -----

  function NamesOf(resources: seq<Resource>): set<string> {
    set r | r in resources && r.kind == UserKind :: r.name
  }

  /** Users were removed, no others than those named, and none was added or changed. */
  predicate Shrunk(before: Users, after: Users, names: set<string>) {
    && (forall name <- after :: name in before && after[name] == before[name])
    && (forall name <- before :: name in after || name in names)
  }

  predicate AllDeleted(report: seq<Report>) {
    forall i | 0 <= i < |report| :: report[i].deleted
  }

  /** The first n resources name no user that is left. */
  predicate Gone(users: Users, resources: seq<Resource>, n: nat) {
    forall i | 0 <= i < n && i < |resources| && resources[i].kind == UserKind :: resources[i].name !in users
  }

  lemma ReportedSoFar(report: seq<Report>, resources: seq<Resource>, i: nat, kind: Kind)
    requires i < |resources|
    ensures var r := resources[i];
            if r.kind == kind then
              forall deleted: bool ::
                Reported(report + [Report(r.kind, r.name, deleted)]) + OfKind(resources[i + 1..], kind)
                == Reported(report) + OfKind(resources[i..], kind)
            else OfKind(resources[i + 1..], kind) == OfKind(resources[i..], kind)
  {
    var r := resources[i];
    assert resources[i..][0] == r && resources[i..][1..] == resources[i + 1..];
    if r.kind == kind {
      forall deleted: bool
        ensures Reported(report + [Report(r.kind, r.name, deleted)]) + OfKind(resources[i + 1..], kind)
             == Reported(report) + OfKind(resources[i..], kind)
      {
        assert Reported(report + [Report(r.kind, r.name, deleted)]) == Reported(report) + [r];
        AppendAssociates(Reported(report), [r], OfKind(resources[i + 1..], kind));
      }
    }
  }

  function UsersNamed(names: seq<string>): seq<Resource> {
    seq(|names|, i requires 0 <= i < |names| => Resource(UserKind, names[i]))
  }

  predicate PrefixRequested(resources: seq<Resource>, name: string) {
    exists r <- resources :: r.kind == PrefixKind && HasPrefix(name, r.name)
  }

  /** The expansion of a request: patterns for each prefix, and existing users that start with one;
      all of them if the listing succeeded. */
  predicate Expands(resources: seq<Resource>, additional: seq<Resource>, users: Users, listing: Listing) {
    && (forall r <- additional :: r.kind != PrefixKind)
    && (forall r <- resources :: r.kind == PrefixKind ==> forall p <- PrefixPatterns(r.name) :: p in additional)
    && (forall r <- additional :: r.kind == UserKind ==> r.name in users && PrefixRequested(resources, r.name))
    && (listing.Listed? ==>
          forall name <- users :: PrefixRequested(resources, name) ==> Resource(UserKind, name) in additional)
  }

  lemma ExpandsOneMore(resources: seq<Resource>, additional: seq<Resource>, users: Users, listing: Listing,
                       prefix: string, names: seq<string>)
    requires Expands(resources, additional, users, listing)
    requires forall name <- names :: name in users && HasPrefix(name, prefix)
    requires listing.Listed? ==> forall name <- users :: HasPrefix(name, prefix) ==> name in names
    ensures Expands(resources + [Resource(PrefixKind, prefix)],
                    additional + (PrefixPatterns(prefix) + UsersNamed(names)), users, listing)
  {
    var more, all := PrefixPatterns(prefix) + UsersNamed(names), resources + [Resource(PrefixKind, prefix)];
    assert Resource(PrefixKind, prefix) in all;
    forall r <- more
      ensures r.kind != PrefixKind
      ensures r.kind == UserKind ==> r.name in names
    {
    }
    forall name <- names
      ensures Resource(UserKind, name) in UsersNamed(names)
    {
      var i :| 0 <= i < |names| && names[i] == name;
      assert UsersNamed(names)[i] == Resource(UserKind, name);
    }
    assert forall name <- users :: PrefixRequested(all, name) <==>
            PrefixRequested(resources, name) || HasPrefix(name, prefix);
  }

  lemma ReportedAppend(a: seq<Report>, b: seq<Report>)
    ensures Reported(a + b) == Reported(a) + Reported(b)
  {
  }

  lemma SixGroups(all: seq<Resource>, a: seq<Report>, b: seq<Report>, c: seq<Report>, d: seq<Report>, e: seq<Report>,
                  f: seq<Report>)
    requires Reported(a) == OfKind(all, UserKind) && Reported(b) == OfKind(all, IndexKind)
    requires Reported(c) == OfKind(all, MetadataKind) && Reported(d) == OfKind(all, TemplateKind)
    requires Reported(e) == OfKind(all, IndexTemplateKind) && Reported(f) == OfKind(all, AliasKind)
    ensures Reported(a + b + c + d + e + f) == Grouped(all, DELETION_ORDER)
    ensures AllDeleted(a) && AllDeleted(b) && AllDeleted(c) && AllDeleted(d) && AllDeleted(e) && AllDeleted(f) ==>
              AllDeleted(a + b + c + d + e + f)
  {
    ReportedAppend(a, b);
    ReportedAppend(a + b, c);
    ReportedAppend(a + b + c, d);
    ReportedAppend(a + b + c + d, e);
    ReportedAppend(a + b + c + d + e, f);
    GroupedOfSix(all);
  }

  predicate NoErrorStatus(replies: seq<Io>) {
    forall i | 0 <= i < |replies| :: !replies[i].ErrorStatus?
  }

  /** Users reported deleted are gone. */
  predicate Honest(report: seq<Report>, users: Users) {
    forall i | 0 <= i < |report| && report[i].kind == UserKind && report[i].deleted :: report[i].name !in users
  }

  lemma HonestAppend(a: seq<Report>, b: seq<Report>, all: seq<Resource>, kind: Kind, users: Users)
    requires Honest(a, users) && Reported(b) == OfKind(all, kind) && kind != UserKind
    ensures Honest(a + b, users)
  {
    forall i | 0 <= i < |b|
      ensures b[i].kind == kind
    {
      assert Reported(b)[i] in OfKind(all, kind);
      OfKindMember(all, kind, Reported(b)[i]);
    }
  }

  lemma HonestGroups(all: seq<Resource>, users: Users, a: seq<Report>, b: seq<Report>, c: seq<Report>, d: seq<Report>,
                     e: seq<Report>, f: seq<Report>)
    requires Honest(a, users) && Reported(b) == OfKind(all, IndexKind) && Reported(c) == OfKind(all, MetadataKind)
    requires Reported(d) == OfKind(all, TemplateKind) && Reported(e) == OfKind(all, IndexTemplateKind)
    requires Reported(f) == OfKind(all, AliasKind)
    ensures Honest(a + b + c + d + e + f, users)
  {
    HonestAppend(a, b, all, IndexKind, users);
    HonestAppend(a + b, c, all, MetadataKind, users);
    HonestAppend(a + b + c, d, all, TemplateKind, users);
    HonestAppend(a + b + c + d, e, all, IndexTemplateKind, users);
    HonestAppend(a + b + c + d + e, f, all, AliasKind, users);
  }

  lemma GroupedOfSix(all: seq<Resource>)
    ensures Grouped(all, DELETION_ORDER)
         == OfKind(all, UserKind) + OfKind(all, IndexKind) + OfKind(all, MetadataKind) + OfKind(all, TemplateKind)
            + OfKind(all, IndexTemplateKind) + OfKind(all, AliasKind)
  {
    var one := [] + [UserKind];
    var two := one + [IndexKind];
    var three := two + [MetadataKind];
    var four := three + [TemplateKind];
    var five := four + [IndexTemplateKind];
    assert five + [AliasKind] == DELETION_ORDER;
    GroupedSnoc(all, [], UserKind);
    assert [] + OfKind(all, UserKind) == OfKind(all, UserKind);
    GroupedSnoc(all, one, IndexKind);
    GroupedSnoc(all, two, MetadataKind);
    GroupedSnoc(all, three, TemplateKind);
    GroupedSnoc(all, four, IndexTemplateKind);
    GroupedSnoc(all, five, AliasKind);
  }

  lemma GroupedSnoc(all: seq<Resource>, kinds: seq<Kind>, kind: Kind)
    ensures Grouped(all, kinds + [kind]) == Grouped(all, kinds) + OfKind(all, kind)
  {
    assert (kinds + [kind])[..|kinds|] == kinds;
  }

  lemma ExpandsUnchanged(resources: seq<Resource>, additional: seq<Resource>, users: Users, listing: Listing,
                         r: Resource)
    requires Expands(resources, additional, users, listing) && r.kind != PrefixKind
    ensures Expands(resources + [r], additional, users, listing)
  {
    assert forall name: string :: PrefixRequested(resources + [r], name) <==> PrefixRequested(resources, name);
  }

  class Provider {
    const uuid: nat -> string      // identifiers the generator will hand out
    var users: Users
    var issued: nat
    var replies: seq<Io>           // how requests to come will end; once used up, they succeed

    constructor (uuid: nat -> string, users: Users)
      ensures this.uuid == uuid && this.users == users && issued == 0 && replies == []
    {
      this.uuid, this.users, issued, replies := uuid, users, 0, [];
    }

    method Ask() returns (io: Io)
      modifies `replies
      ensures io == ReplyAt(old(replies), 0) && replies == After(old(replies), 1)
    {
      io, replies := ReplyAt(replies, 0), After(replies, 1);
    }

    /** Only a listing that answers 200 is looked at; one that is not found or refused passes. */
    method CheckPrefixUniqueness(prefix: string, listing: Listing) returns (ok: bool)
      ensures ok <==> listing.NotFound? || listing.OtherStatus? || (listing.Listed? && Unique(users, prefix))
    {
      if listing.NoAnswer? {
        return false;
      }
      if listing.Listed? {
        var todo := users.Keys;
        while todo != {}
          invariant todo <= users.Keys
          invariant forall name <- users.Keys - todo :: !Clashes(name, users[name], prefix)
          decreases todo
        {
          var name :| name in todo;
          if HasPrefix(name, prefix) {
            return false;
          }
          if users[name].resourcePrefix != "" && HasPrefix(users[name].resourcePrefix, prefix) {
            return false;
          }
          todo := todo - {name};
        }
      }
      return true;
    }

    method CreateOrUpdateUser(prefix: string, username: string, role: string) returns (ok: bool)
      modifies `users, `replies
      ensures users == if && ReplyAt(old(replies), 0).Ok?
                          && (ReplyAt(old(replies), 1).Ok? || ReplyAt(old(replies), 1).applied)
                       then old(users)[username := User(prefix, role)] else old(users)
      ensures ok <==> AllMet(old(replies), Successes(2))
      ensures ok ==> replies == After(old(replies), 2)
    {
      TwoSuccesses(replies);
      ReplyAfter(replies, 1, 0);
      var io := Ask();
      if !io.Ok? {
        return false;
      }
      io := Ask();
      if io.Ok? || io.applied {
        users := users[username := User(prefix, role)];
      }
      return io.Ok?;
    }

    /** The user for role type i, after those for the role types before it. */
    method CreateUser(prefix: string, i: nat, given: seq<Connection>, ghost from: nat, ghost before: Users)
      returns (ok: bool, connections: seq<Connection>)
      requires i < 4 && UsersCreated(prefix, uuid, from, i, before, users, given) && issued == from + i
      modifies `users, `replies, `issued
      ensures issued == from + i + 1
      ensures ok ==> UsersCreated(prefix, uuid, from, i + 1, before, users, connections)
      ensures OutsideSame(before, users, prefix)
      ensures ok <==> AllMet(old(replies), Successes(2))
      ensures ok ==> replies == After(old(replies), 2)
    {
      var next := Connection(Username(prefix, uuid(issued)), ROLE_TYPES[i]);
      OneMoreUser(prefix, uuid, from, i, before, users, given, next);
      ghost var more := users[next.username := User(prefix, next.role)];
      UsersCreatedOutside(prefix, uuid, from, i, before, users, given);
      UsersCreatedOutside(prefix, uuid, from, i + 1, before, more, given + [next]);
      issued := issued + 1;
      ok := CreateOrUpdateUser(prefix, next.username, next.role);
      connections := given + [next];
    }

    /** One user per role type. */
    method CreateUsers(prefix: string) returns (ok: bool, connections: seq<Connection>)
      modifies `users, `replies, `issued
      ensures ok ==> issued == old(issued) + 4 && connections == Connections(prefix, uuid, old(issued), 4)
      ensures ok ==> users == AddUsers(old(users), prefix, connections)
      ensures OutsideSame(old(users), users, prefix)
      ensures ok <==> AllMet(old(replies), Successes(8))
      ensures ok ==> replies == After(old(replies), 8)
    {
      connections := [];
      ok := true;
      for i := 0 to |ROLE_TYPES|
        invariant ok && issued == old(issued) + i && Used(old(replies), replies, Successes(2 * i))
        invariant UsersCreated(prefix, uuid, old(issued), i, old(users), users, connections)
      {
        UsedMore(old(replies), replies, Successes(2 * i), Successes(2));
        MoreSuccesses(2 * i, 2);
        ok, connections := CreateUser(prefix, i, connections, old(issued), old(users));
        if !ok {
          NotAllMet(old(replies), Successes(2 * i + 2), Successes(8));
          return;
        }
      }
      UsersCreatedOutside(prefix, uuid, old(issued), 4, old(users), users, connections);
    }

    /** One entry of the list of kinds to create, after m entries for users. */
    method CreateEntry(prefix: string, kind: Kind, indexName: string, soFar: seq<Resource>, given: seq<Connection>,
                       ghost from: nat, ghost m: nat, ghost before: Users)
      returns (ok: bool, resources: seq<Resource>, connections: seq<Connection>)
      requires InCreation(prefix, uuid, from, m, before, users, soFar, given) && issued == from + 4 * m
      modifies `users, `replies, `issued
      ensures ok ==> InCreation(prefix, uuid, from, m + EntryOf(kind), before, users, resources, connections)
      ensures ok ==> issued == from + 4 * (m + EntryOf(kind))
      ensures OutsideSame(before, users, prefix)
      ensures ok <==> AllMet(old(replies), NeedsOf(kind))
      ensures ok ==> replies == After(old(replies), |NeedsOf(kind)|)
      ensures ok ==> soFar <= resources && var more := resources[|soFar|..];
                     if kind == IndexKind then more == [Resource(IndexKind, indexName)]
                     else forall r <- more :: r.kind == UserKind
    {
      ok, resources, connections := true, soFar, given;
      CreationOutsideSame(prefix, uuid, from, m, before, users, soFar, given);
      if kind == IndexKind {
        OneAnswer(replies);
        var io := Ask();
        ok := !io.NoAnswer?;
        if ok {
          CreationOfIndex(prefix, uuid, from, m, before, users, soFar, given, indexName);
          resources := soFar + [Resource(IndexKind, indexName)];
        }
      } else if kind == UserKind {
        ghost var earlier := users;
        var more;
        ok, more := CreateUsers(prefix);
        OutsideSameTransitively(before, earlier, users, prefix);
        if ok {
          CreationGoesOn(prefix, uuid, from, m, before, earlier, soFar, given, more);
          resources, connections := soFar + UserResources(more), given + more;
        }
      }
    }

    /** The loop over the kinds of resources to create. */
    method CreateEntries(prefix: string, entries: seq<Kind>, indexName: string)
      returns (ok: bool, resources: seq<Resource>, connections: seq<Connection>)
      modifies `users, `replies, `issued
      ensures ok ==>
              InCreation(prefix, uuid, old(issued), Entries(entries), old(users), users, resources, connections)
      ensures ok ==> ListsIndex(resources, entries, indexName)
      ensures OutsideSame(old(users), users, prefix)
      ensures ok <==> AllMet(old(replies), Needs(entries))
      ensures ok ==> replies == After(old(replies), |Needs(entries)|)
    {
      resources, connections, ok := [], [], true;
      CreationBegins(prefix, uuid, issued, users);
      for i := 0 to |entries|
        invariant ok && issued == old(issued) + 4 * Entries(entries[..i])
        invariant InCreation(prefix, uuid, old(issued), Entries(entries[..i]), old(users), users, resources,
                             connections)
        invariant OutsideSame(old(users), users, prefix)
        invariant Used(old(replies), replies, Needs(entries[..i]))
        invariant ListsIndex(resources, entries[..i], indexName)
      {
        ghost var soFar := resources;
        EntriesNext(entries, i);
        UsedByEntry(old(replies), replies, entries, i);
        ok, resources, connections := CreateEntry(prefix, entries[i], indexName, resources, connections,
                                                  old(issued), Entries(entries[..i]), old(users));
        if !ok {
          return;
        }
        ListsIndexNext(soFar, entries, i, indexName, resources[|soFar|..]);
        assert resources == soFar + resources[|soFar|..];
      }
      assert entries[..|entries|] == entries;
    }

    method CreateDatabase(request: Request, listing: Listing) returns (result: Creation)
      modifies `users, `replies, `issued
      ensures !request.resourcePrefix || PrefixOf(request).None? ==> result.Refused? && users == old(users)
      ensures PrefixOf(request).Some? && !Passes(old(users), listing, PrefixOf(request).value) ==>
              result.Refused? && users == old(users)
      ensures listing.NoAnswer? ==> result.Refused? && users == old(users)
      ensures PrefixOf(request).Some? ==> OutsideSame(old(users), users, PrefixOf(request).value)
      ensures result.Created? ==>
                && PrefixOf(request) == Some(result.prefix) && Passes(old(users), listing, result.prefix)
                && result.connections == ConnectionsOf(request, uuid, old(issued))
                && users == AddUsers(old(users), result.prefix, result.connections)
                && CreatedResources(result) && RestListed(request, result)
      ensures result.Created? <==> Accepted(request, old(users), listing) && EverythingMet(request, old(replies))
      ensures result.NothingReturned? <==>
              Accepted(request, old(users), listing) && OnlyIndexUndone(request, old(replies))
      ensures result.NothingReturned? ==>
              users == AddUsers(old(users), PrefixOf(request).value, ConnectionsOf(request, uuid, old(issued)))
    {
      if !request.resourcePrefix || PrefixOf(request).None? {
        return Refused;
      }
      var prefix := PrefixOf(request).value;
      var unique := CheckPrefixUniqueness(prefix, listing);
      if !unique {
        return Refused;
      }
      result := CreateAll(request, prefix);
    }

    /** Creates what was asked for and writes the metadata. */
    method CreateAll(request: Request, prefix: string) returns (result: Creation)
      requires PrefixOf(request) == Some(prefix)
      modifies `users, `replies, `issued
      ensures OutsideSame(old(users), users, prefix)
      ensures result.Created? ==>
                && result.prefix == prefix && result.connections == ConnectionsOf(request, uuid, old(issued))
                && CreatedResources(result) && RestListed(request, result)
      ensures result.Created? <==> EverythingMet(request, old(replies))
      ensures result.NothingReturned? <==> OnlyIndexUndone(request, old(replies))
      ensures !result.Refused? ==> users == AddUsers(old(users), prefix, ConnectionsOf(request, uuid, old(issued)))
    {
      var ok, resources, connections := CreateEntries(prefix, ToCreate(request), request.indexName);
      ghost var needs := Needs(ToCreate(request));
      if !ok {
        NotAllMet(old(replies), needs, needs + MetadataNeeds(request));
        return Refused;
      }
      UsedMore(old(replies), replies, needs, MetadataNeeds(request));
      ReplyAfter(old(replies), |needs|, 0);
      ReplyAfter(old(replies), |needs|, 1);
      result := WriteMetadata(request, prefix, resources, connections);
    }

    /** Writes the metadata, if there is any, and answers. If the write stays without an answer, the index
        created for the database is deleted again; any answer to that counts. */
    method WriteMetadata(request: Request, prefix: string, resources: seq<Resource>, connections: seq<Connection>)
      returns (result: Creation)
      requires OnlyUsers(resources, connections) && ListsIndex(resources, ToCreate(request), request.indexName)
      modifies `replies
      ensures result.Created? <==> AllMet(old(replies), MetadataNeeds(request))
      ensures result.Created? ==>
                && result.prefix == prefix && result.connections == connections
                && CreatedResources(result) && RestListed(request, result)
      ensures result.NothingReturned? <==>
              && request.metadata && ReplyAt(old(replies), 0).NoAnswer?
              && CreatesIndex(request) && !ReplyAt(old(replies), 1).NoAnswer?
    {
      ReplyAfter(replies, 1, 0);
      OneAnswer(replies);
      var io := Ok;
      if request.metadata {
        io := Ask();
      }
      if !io.NoAnswer? {
        var metadata := Resource(MetadataKind, if CreatesIndex(request) then request.indexName else prefix);
        OneMoreResource(resources, connections, metadata);
        result := Created(prefix, [Resource(PrefixKind, prefix)] + (resources + [metadata]), connections);
        assert result.resources[1..] == resources + [metadata];
        assert result.resources[1..|result.resources| - 1] == resources;
        return;
      }
      if CreatesIndex(request) {
        io := Ask();
        if !io.NoAnswer? {
          return NothingReturned;
        }
      }
      return Refused;
    }

    /** Deletes one resource. Of what is deleted, only users are kept track of; another resource that is not
        there is one whose deletion succeeds. The lookup of metadata takes an answer with an error status for
        one that finds nothing. A user is reported deleted and
        is still there exactly when it was found and its deletion was answered with an error status and
        not applied. */
    method DeleteResource(r: Resource) returns (report: Report)
      modifies `users, `replies
      ensures report.kind == r.kind && report.name == r.name
      ensures r.kind == UserKind ==>
                (report.deleted <==>
                   && ReplyAt(old(replies), 0).Ok?
                   && (r.name !in old(users) || !ReplyAt(old(replies), 1).NoAnswer?))
      ensures users == if && r.kind == UserKind && ReplyAt(old(replies), 0).Ok?
                          && (ReplyAt(old(replies), 1).Ok? || ReplyAt(old(replies), 1).applied)
                       then old(users) - {r.name} else old(users)
      ensures r.kind == UserKind ==>
                (report.deleted && r.name in users <==>
                   && r.name in old(users) && ReplyAt(old(replies), 0).Ok?
                   && ReplyAt(old(replies), 1) == ErrorStatus(false))
      ensures r.kind == MetadataKind ==>
                (report.deleted <==>
                   || ReplyAt(old(replies), 0).ErrorStatus?
                   || (ReplyAt(old(replies), 0).Ok? && !ReplyAt(old(replies), 1).NoAnswer?))
      ensures r.kind in {IndexKind, TemplateKind, IndexTemplateKind, AliasKind} ==>
                (report.deleted <==> ReplyAt(old(replies), 0).Ok? && !ReplyAt(old(replies), 1).NoAnswer?)
      ensures r.kind !in DELETION_ORDER ==> report.deleted && replies == old(replies)
      ensures r.kind in DELETION_ORDER ==> replies == After(old(replies), 1) || replies == After(old(replies), 2)
      ensures old(replies) == [] ==> report.deleted && replies == []
    {
      if r.kind !in DELETION_ORDER {
        return Report(r.kind, r.name, true);
      }
      ReplyAfter(replies, 1, 0);
      var io := Ask();
      if io.NoAnswer? || (io.ErrorStatus? && r.kind != MetadataKind) {
        return Report(r.kind, r.name, false);
      }
      if io.ErrorStatus? || (r.kind == UserKind && r.name !in users) {
        assert r.kind == UserKind ==> users - {r.name} == users;
        return Report(r.kind, r.name, true);
      }
      io := Ask();
      if r.kind == UserKind && (io.Ok? || io.applied) {
        users := users - {r.name};
      }
      return Report(r.kind, r.name, !io.NoAnswer?);
    }

    method DeleteByKind(resources: seq<Resource>, kind: Kind) returns (report: seq<Report>)
      modifies `users, `replies
      ensures Reported(report) == OfKind(resources, kind)
      ensures Shrunk(old(users), users, if kind == UserKind then NamesOf(resources) else {})
      ensures kind != UserKind ==> users == old(users)
      ensures kind == UserKind && old(replies) == [] ==> Gone(users, resources, |resources|)
      ensures old(replies) == [] ==> replies == [] && AllDeleted(report)
      ensures NoErrorStatus(old(replies)) ==> NoErrorStatus(replies) && Honest(report, users)
    {
      report := [];
      for i := 0 to |resources|
        invariant Reported(report) + OfKind(resources[i..], kind) == OfKind(resources, kind)
        invariant Shrunk(old(users), users, if kind == UserKind then NamesOf(resources) else {})
        invariant kind != UserKind ==> users == old(users)
        invariant kind == UserKind && old(replies) == [] ==> Gone(users, resources, i)
        invariant old(replies) == [] ==> replies == [] && AllDeleted(report)
        invariant NoErrorStatus(old(replies)) ==> NoErrorStatus(replies) && Honest(report, users)
      {
        ReportedSoFar(report, resources, i, kind);
        if resources[i].kind == kind {
          var one := DeleteResource(resources[i]);
          report := report + [one];
        }
      }
    }

    /** The users whose names start with the prefix, in the order of the listing. */
    method GetUsersByPrefix(prefix: string, listing: Listing) returns (names: seq<string>)
      ensures forall name <- names :: name in users && HasPrefix(name, prefix)
      ensures listing.Listed? ==> forall name <- users :: HasPrefix(name, prefix) ==> name in names
      ensures !listing.Listed? ==> names == []
    {
      names := [];
      if listing.Listed? {
        var todo := users.Keys;
        while todo != {}
          invariant todo <= users.Keys
          invariant forall name <- names :: name in users && HasPrefix(name, prefix)
          invariant forall name <- users.Keys - todo :: HasPrefix(name, prefix) ==> name in names
          decreases todo
        {
          var name :| name in todo;
          if HasPrefix(name, prefix) {
            names := names + [name];
          }
          todo := todo - {name};
        }
      }
    }

    /** What the prefixes of a request stand for. */
    method ExpandPrefixes(resources: seq<Resource>, listing: Listing) returns (additional: seq<Resource>)
      ensures Expands(resources, additional, users, listing)
    {
      additional := [];
      for i := 0 to |resources|
        invariant Expands(resources[..i], additional, users, listing)
      {
        var r := resources[i];
        assert resources[..i + 1] == resources[..i] + [r];
        if r.kind == PrefixKind {
          var names := GetUsersByPrefix(r.name, listing);
          ExpandsOneMore(resources[..i], additional, users, listing, r.name, names);
          additional := additional + (PrefixPatterns(r.name) + UsersNamed(names));
        } else {
          ExpandsUnchanged(resources[..i], additional, users, listing, r);
        }
      }
      assert resources[..|resources|] == resources;
    }

    /** Drops the resources: users first, then the other kinds, each reported in its old order. */
    method DeleteResources(resources: seq<Resource>, listing: Listing)
      returns (report: seq<Report>, additional: seq<Resource>)
      modifies `users, `replies
      ensures Expands(resources, additional, old(users), listing)
      ensures Reported(report) == Grouped(resources + additional, DELETION_ORDER)
      ensures Shrunk(old(users), users, NamesOf(resources + additional))
      ensures old(replies) == [] ==> Gone(users, resources + additional, |resources + additional|) && AllDeleted(report)
      ensures NoErrorStatus(old(replies)) ==> Honest(report, users)
    {
      additional := ExpandPrefixes(resources, listing);
      var all := resources + additional;
      var deletedUsers := DeleteByKind(all, UserKind);
      var databases := DeleteByKind(all, IndexKind);
      var metadata := DeleteByKind(all, MetadataKind);
      var templates := DeleteByKind(all, TemplateKind);
      var indexTemplates := DeleteByKind(all, IndexTemplateKind);
      var aliases := DeleteByKind(all, AliasKind);
      SixGroups(all, deletedUsers, databases, metadata, templates, indexTemplates, aliases);
      if Honest(deletedUsers, users) {
        HonestGroups(all, users, deletedUsers, databases, metadata, templates, indexTemplates, aliases);
      }
      report := deletedUsers + databases + metadata + templates + indexTemplates + aliases;
    }
  }

  // ----- What dropping removes -----

  /** Without failures, a drop removes exactly the users named in the request or starting with one of
      its prefixes, and leaves all others as they are. */
  method Drop(provider: Provider, resources: seq<Resource>) returns (report: seq<Report>, additional: seq<Resource>)
    modifies provider
    ensures Reported(report) == Grouped(resources + additional, DELETION_ORDER) && AllDeleted(report)
    ensures forall name: string ::
              if Requested(resources, name) then name !in provider.users
              else SameUser(old(provider.users), provider.users, name)
  {
    provider.replies := [];
    report, additional := provider.DeleteResources(resources, Listed);
    DroppedExactly(resources, additional, old(provider.users), provider.users);
  }

  lemma DroppedExactly(resources: seq<Resource>, additional: seq<Resource>, before: Users, after: Users)
    requires Expands(resources, additional, before, Listed)
    requires Shrunk(before, after, NamesOf(resources + additional))
    requires Gone(after, resources + additional, |resources + additional|)
    ensures forall name: string ::
              if Requested(resources, name) then name !in after else SameUser(before, after, name)
  {
    forall name: string
      ensures if Requested(resources, name) then name !in after else SameUser(before, after, name)
    {
      var all := resources + additional;
      if Requested(resources, name) {
        if name in before {
          assert Resource(UserKind, name) in all;
          var i :| 0 <= i < |all| && all[i] == Resource(UserKind, name);
        }
      } else {
        assert name in NamesOf(all) ==> Resource(UserKind, name) in all;
      }
    }
  }

  /** Creating a database and dropping what the answer lists leaves the users exactly as they were, if
      the check could list the users and the drop meets no failure. */
  method CreateThenDrop(provider: Provider, request: Request) returns (result: Creation)
    modifies provider
    ensures result.Created? ==> provider.users == old(provider.users)
  {
    result := provider.CreateDatabase(request, Listed);
    if result.Created? {
      ghost var created := provider.users;
      ghost var entries := Entries(ToCreate(request));
      assert AllStartWith(result.connections, result.prefix) by {
        ConnectionsStartWith(result.prefix, provider.uuid, old(provider.issued), 4 * entries);
      }
      var report, additional := Drop(provider, result.resources);
      RestoredUsers(old(provider.users), created, provider.users, result);
    }
  }

  /** Without that listing it does not: an answer that is not 200 passes the check, and an earlier user whose
      name starts with the prefix goes with the database. */
  method CreateUncheckedThenDrop(provider: Provider, request: Request, listing: Listing, name: string)
    returns (result: Creation)
    requires listing.NotFound? || listing.OtherStatus?
    requires request.resourcePrefix && PrefixOf(request).Some? && HasPrefix(name, PrefixOf(request).value)
    requires name in provider.users
    modifies provider
    ensures result.Created? && name !in provider.users
  {
    provider.replies := [];
    result := provider.CreateDatabase(request, listing);
    assert result.resources[0] in result.resources;
    var report, additional := Drop(provider, result.resources);
    assert Requested(result.resources, name);
  }

  lemma RestoredUsers(before: Users, created: Users, after: Users, result: Creation)
    requires result.Created? && Unique(before, result.prefix) && CreatedResources(result)
    requires OutsideSame(before, created, result.prefix)
    requires AllStartWith(result.connections, result.prefix)
    requires forall name: string ::
               if Requested(result.resources, name) then name !in after else SameUser(created, after, name)
    ensures after == before
  {
    forall name: string
      ensures SameUser(before, after, name)
    {
      RequestedExactly(result, name);
      if HasPrefix(name, result.prefix) {
        assert name in before ==> !Clashes(name, before[name], result.prefix);
      } else {
        assert SameUser(before, created, name);
      }
    }
    assert after.Keys == before.Keys by {
      forall name: string
        ensures name in after <==> name in before
      {
        assert SameUser(before, after, name);
      }
    }
    forall name <- before
      ensures after[name] == before[name]
    {
      assert SameUser(before, after, name);
    }
  }

  /** The answer to a creation requests exactly the names that start with the prefix. */
  lemma RequestedExactly(result: Creation, name: string)
    requires result.Created? && CreatedResources(result) && AllStartWith(result.connections, result.prefix)
    ensures Requested(result.resources, name) <==> HasPrefix(name, result.prefix)
  {
    var rest := result.resources[1..];
    assert result.resources == [result.resources[0]] + rest;
    assert result.resources[0] in result.resources;
    if Resource(UserKind, name) in result.resources {
      OfKindMember(rest, UserKind, Resource(UserKind, name));
      var i :| 0 <= i < |result.connections| && UserResources(result.connections)[i] == Resource(UserKind, name);
      assert result.connections[i] in result.connections;
    }
  }

  /** A user that is found but may not be deleted: the refusal is answered, so the user is reported
      deleted and stays. */
  method RefusedDeletionReported(provider: Provider, name: string) returns (report: Report)
    requires name in provider.users
    modifies provider
    ensures report == Report(UserKind, name, true) && provider.users == old(provider.users)
  {
    provider.replies := [Ok, ErrorStatus(false)];
    report := provider.DeleteResource(Resource(UserKind, name));
  }

  /** Created, although neither the index nor the metadata was: both requests are answered with an error
      status. */
  method CreatedDespiteErrors(provider: Provider, prefix: string) returns (result: Creation)
    requires prefix != "" && !Forbidden(prefix) && Unique(provider.users, prefix)
    modifies provider
    ensures result.Created?
  {
    var request := Request(true, prefix, None, [IndexKind], "index", true);
    assert [IndexKind][..0] == [] && Needs([IndexKind]) == [Answer];
    provider.replies := [ErrorStatus(false), ErrorStatus(false)];
    result := provider.CreateDatabase(request, Listed);
  }

  /** Neither a result nor an error: the index and the users are created, writing the metadata stays
      without an answer, and the index is deleted again. The users stay behind. */
  method CreateWithoutMetadata(provider: Provider, prefix: string) returns (result: Creation)
    requires prefix != "" && !Forbidden(prefix) && Unique(provider.users, prefix)
    modifies provider
    ensures result == NothingReturned
    ensures provider.users == AddUsers(old(provider.users), prefix,
                                       Connections(prefix, provider.uuid, old(provider.issued), 4))
  {
    var request := Request(true, prefix, None, [IndexKind, UserKind], "index", true);
    var kinds := request.createOnly;
    assert kinds[..1] == [IndexKind] && [IndexKind][..0] == [] && |Needs(kinds)| == 9 && Entries(kinds) == 1;
    provider.replies := [Ok, Ok, Ok, Ok, Ok, Ok, Ok, Ok, Ok, Io.NoAnswer(false), Ok];
    result := provider.CreateDatabase(request, Listed);
  }

  /** A user that existed when the prefix passed the check against a listing survives every later drop
      of that database, however the store has changed since and whatever fails during the drop. */
  lemma DropSparesEarlierUsers(checked: Users, result: Creation, later: Users, additional: seq<Resource>,
                               listing: Listing, after: Users, name: string)
    requires result.Created? && CreatedResources(result) && AllStartWith(result.connections, result.prefix)
    requires Unique(checked, result.prefix) && name in checked && name in later
    requires Expands(result.resources, additional, later, listing)
    requires Shrunk(later, after, NamesOf(result.resources + additional))
    ensures name in after && after[name] == later[name]
  {
    assert !Clashes(name, checked[name], result.prefix);
    RequestedExactly(result, name);
    var all := result.resources + additional;
    assert name in NamesOf(all) ==> Resource(UserKind, name) in all;
  }

  /** But not a user of a database created afterwards under a longer prefix: the check for the longer
      one passes, and dropping the shorter one then takes that user with it. The other order is refused. */
  lemma CheckIsOneSided(p: string, q: string, role: string, u: string, v: string)
    requires HasPrefix(q, p) && q != p && !HasPrefix(Username(p, u), q)
    ensures Unique(map[Username(p, u) := User(p, role)], q)
    ensures Requested([Resource(PrefixKind, p)], Username(q, v))
    ensures !Unique(map[Username(q, v) := User(q, role)], p)
  {
    var name := Username(q, v);
    assert HasPrefix(name, q) by {
      assert name == q + ("_" + v);
    }
    assert HasPrefix(name, p) by {
      assert name[..|p|] == q[..|p|] == p;
    }
    assert Resource(PrefixKind, p) in [Resource(PrefixKind, p)];
    var users := map[name := User(q, role)];
    assert name in users && Clashes(name, users[name], p);
  }

  // ----- Created and recovered users -----

  /** `strings.TrimRight(s, "*")`. */
  function TrimStars(s: string): string {
    if s != "" && s[|s| - 1] == '*' then TrimStars(s[..|s| - 1]) else s
  }

  /** What creating a user stores: attribute and role only for a user of a database pattern. */
  function StoredContent(pattern: string, role: string, password: string): UsersRecovery.Content {
    if pattern == "" then UsersRecovery.Content(map[], [], password)
    else UsersRecovery.Content(map["resource_prefix" := TrimStars(pattern)], ["dbaas_" + role], password)
  }

  /** Connection properties of the first interface version carry no role, and no prefix for a database of its
      own name; recovery then falls back on what that version stores: the admin role and the name. */
  lemma FirstVersionRecoveredAsCreated(username: string, prefix: string, password: string, dbName: string)
    requires dbName != "" && '*' !in dbName && '*' !in prefix
    ensures var p := UsersRecovery.ConnectionProperties(username, password, "", "", dbName);
            UsersRecovery.UserContent(p) == StoredContent(dbName, "admin", password)
    ensures prefix != "" ==>
            var p := UsersRecovery.ConnectionProperties(username, password, "", prefix, dbName);
            UsersRecovery.UserContent(p) == StoredContent(prefix + "*", "admin", password)
  {
    NoStarsToTrim(dbName);
    NoStarsToTrim(prefix);
    var pattern := prefix + "*";
    assert pattern[..|pattern| - 1] == prefix;
  }

  lemma NoStarsToTrim(s: string)
    requires '*' !in s
    ensures TrimStars(s) == s
  {
    if s != "" {
      assert s[|s| - 1] in s;
    }
  }

  /** Recovering a user from the connection properties of its creation stores the same content again. */
  lemma RecoveredAsCreated(prefix: string, uuid: string, role: string, password: string, dbName: string)
    requires prefix != "" && !Forbidden(prefix) && role in ROLE_TYPES
    ensures UsersRecovery.UserContent(UsersRecovery.ConnectionProperties(Username(prefix, uuid), password, role,
                                                                         prefix, dbName))
         == StoredContent(prefix + "*", role, password)
  {
    var pattern := prefix + "*";
    assert pattern[..|pattern| - 1] == prefix;
    assert prefix[|prefix| - 1] in prefix;
    assert TrimStars(prefix) == prefix;
  }
}
