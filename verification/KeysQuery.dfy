// The reply to a keys query, how two replies are summed, and how a long user list is cut into chunks
// (MatrixSDK/Categories/MXKeysQueryResponse+Extensions.swift, MatrixSDK/Contrib/Swift/MXResponse.swift,
// MatrixSDK/Utils/Categories/Array.swift).
module KeysQuery {
  import opened Wrappers
  import opened Dictionaries

  datatype DeviceInfo = DeviceInfo(keys: string)
  datatype CrossSigningInfo = CrossSigningInfo(keys: string)

  // The objects found at the leaves of the dictionaries below.
  datatype Leaf = Device(device: DeviceInfo) | CrossSigning(info: CrossSigningInfo) | Scalar(text: string)

  type DeviceMap = map<string, map<string, DeviceInfo>>
  type Node = Value<string, Leaf>

  datatype KeysQueryResponse = KeysQueryResponse(
    deviceKeys: Option<DeviceMap>,
    crossSigningKeys: Option<map<string, CrossSigningInfo>>,
    failures: Option<map<string, Node>>)
  {
    // `?? NSDictionary()`: a missing dictionary reads as an empty one.
    function Devices(): DeviceMap { deviceKeys.Or(map[]) }
    function CrossSigning(): map<string, CrossSigningInfo> { crossSigningKeys.Or(map[]) }
    function Failures(): Node { Dict(failures.Or(map[])) }
  }

  const EMPTY := KeysQueryResponse(None, None, None)

  function EncodeUser(devices: map<string, DeviceInfo>): Node {
    Dict(map d | d in devices :: Atom(Device(devices[d])))
  }

  function EncodeDevices(devices: DeviceMap): Node {
    Dict(map u | u in devices :: EncodeUser(devices[u]))
  }

  function EncodeCrossSigning(keys: map<string, CrossSigningInfo>): Node {
    Dict(map u | u in keys :: Atom(CrossSigning(keys[u])))
  }

  // The conditional cast `as? [String: MXDeviceInfo]`.
  predicate IsUser(v: Node) {
    v.Dict? && forall d | d in v.entries :: v.entries[d].Atom? && v.entries[d].atom.Device?
  }

  // The conditional cast `as? [String: [String: MXDeviceInfo]]`: nothing at all unless every entry has the type.
  function CastDevices(v: Node): Option<DeviceMap> {
    if v.Dict? && forall u | u in v.entries :: IsUser(v.entries[u])
    then Some(map u | u in v.entries ::
                (map d | d in v.entries[u].entries :: v.entries[u].entries[d].atom.device))
    else None
  }

  // The conditional cast `as? [String: MXCrossSigningInfo]`.
  function CastCrossSigning(v: Node): Option<map<string, CrossSigningInfo>> {
    if v.Dict? && forall u | u in v.entries :: v.entries[u].Atom? && v.entries[u].atom.CrossSigning?
    then Some(map u | u in v.entries :: v.entries[u].atom.info)
    else None
  }

  /** `MXKeysQueryResponse.+`: sums the three dictionaries and casts the sums back. */
  function Plus(l: KeysQueryResponse, r: KeysQueryResponse): KeysQueryResponse {
    KeysQueryResponse(
      CastDevices(MergeValue(EncodeDevices(l.Devices()), EncodeDevices(r.Devices()))),
      CastCrossSigning(MergeValue(EncodeCrossSigning(l.CrossSigning()),
                                  EncodeCrossSigning(r.CrossSigning()))),
      Some(MergeValue(l.Failures(), r.Failures()).entries))
  }

  // What the sum means for device keys: per user the union of the devices, the right operand winning.
  function UnionDevices(a: DeviceMap, b: DeviceMap): DeviceMap {
    a + map u | u in b :: if u in a then a[u] + b[u] else b[u]
  }

  lemma EncodedUserMerge(a: map<string, DeviceInfo>, b: map<string, DeviceInfo>)
    ensures MergeValue(EncodeUser(a), EncodeUser(b)) == EncodeUser(a + b)
  {
    var m, e := MergeValue(EncodeUser(a), EncodeUser(b)).entries, EncodeUser(a + b).entries;
    forall d | d in m ensures m[d] == e[d] {
      if d in a && d in b {
        assert MergeValue(EncodeUser(a).entries[d], EncodeUser(b).entries[d]) == EncodeUser(b).entries[d];
      }
    }
    assert m == e;
  }

  lemma EncodedDevicesMerge(a: DeviceMap, b: DeviceMap)
    ensures MergeValue(EncodeDevices(a), EncodeDevices(b)) == EncodeDevices(UnionDevices(a, b))
  {
    var m, e := MergeValue(EncodeDevices(a), EncodeDevices(b)).entries, EncodeDevices(UnionDevices(a, b)).entries;
    assert m.Keys == e.Keys;
    forall u | u in m ensures m[u] == e[u] {
      if u in a && u in b {
        EncodedUserMerge(a[u], b[u]);
      }
    }
    assert m == e;
  }

  lemma CastEncodedDevices(a: DeviceMap)
    ensures CastDevices(EncodeDevices(a)) == Some(a)
  {
    var c := CastDevices(EncodeDevices(a)).value;
    forall u | u in a ensures c[u] == a[u] {}
    assert c == a;
  }

  lemma CrossSigningMerge(a: map<string, CrossSigningInfo>, b: map<string, CrossSigningInfo>)
    ensures CastCrossSigning(MergeValue(EncodeCrossSigning(a), EncodeCrossSigning(b))) == Some(a + b)
  {
    var m, e := MergeValue(EncodeCrossSigning(a), EncodeCrossSigning(b)).entries, EncodeCrossSigning(a + b).entries;
    forall u | u in m ensures m[u] == e[u] {
      if u in a && u in b {
        assert MergeValue(EncodeCrossSigning(a).entries[u], EncodeCrossSigning(b).entries[u])
               == EncodeCrossSigning(b).entries[u];
      }
    }
    assert m == e;
    assert CastCrossSigning(Dict(e)).value == a + b;
  }

  /** The casts never lose a sum: the schema survives, users and devices are united, the right side wins ties. */
  lemma PlusUnites(l: KeysQueryResponse, r: KeysQueryResponse)
    ensures Plus(l, r).deviceKeys == Some(UnionDevices(l.Devices(), r.Devices()))
    ensures Plus(l, r).crossSigningKeys == Some(l.CrossSigning() + r.CrossSigning())
  {
    EncodedDevicesMerge(l.Devices(), r.Devices());
    CastEncodedDevices(UnionDevices(l.Devices(), r.Devices()));
    CrossSigningMerge(l.CrossSigning(), r.CrossSigning());
  }

  /** `nil` dictionaries read as empty ones. */
  function Normal(r: KeysQueryResponse): KeysQueryResponse {
    KeysQueryResponse(Some(r.Devices()), Some(r.CrossSigning()), Some(r.Failures().entries))
  }

  lemma PlusSums(l: KeysQueryResponse, r: KeysQueryResponse)
    ensures Plus(l, r) == KeysQueryResponse(Some(UnionDevices(l.Devices(), r.Devices())),
                                            Some(l.CrossSigning() + r.CrossSigning()),
                                            Some(MergeValue(l.Failures(), r.Failures()).entries))
    ensures Plus(l, r).Devices() == UnionDevices(l.Devices(), r.Devices())
    ensures Plus(l, r).CrossSigning() == l.CrossSigning() + r.CrossSigning()
    ensures Plus(l, r).Failures() == MergeValue(l.Failures(), r.Failures())
  {
    hide UnionDevices, CastDevices, CastCrossSigning;
    PlusUnites(l, r);
  }

  lemma EmptyResponseIsNeutral(r: KeysQueryResponse)
    ensures Plus(EMPTY, r) == Normal(r) && Plus(r, EMPTY) == Normal(r)
  {
    hide Plus, UnionDevices;
    PlusSums(EMPTY, r);
    PlusSums(r, EMPTY);
    UnionWithNone(r.Devices());
    assert map[] + r.CrossSigning() == r.CrossSigning() == r.CrossSigning() + map[];
    EmptyIsNeutral(r.Failures());
  }

  lemma UnionWithNone(a: DeviceMap)
    ensures UnionDevices(map[], a) == a && UnionDevices(a, map[]) == a
  {
    assert UnionDevices(map[], a) == a;
    assert UnionDevices(a, map[]) == a;
  }

  /** Grouping is invisible in the keys, always, and in the failures exactly when their values are regroupable. */
  lemma PlusAssociates(x: KeysQueryResponse, y: KeysQueryResponse, z: KeysQueryResponse)
    ensures Plus(Plus(x, y), z) == Plus(x, Plus(y, z)) <==> Regroupable(x.Failures(), y.Failures(), z.Failures())
  {
    hide *;
    PlusSums(x, y);
    PlusSums(y, z);
    PlusSums(Plus(x, y), z);
    PlusSums(x, Plus(y, z));
    UnionAssociates(x.Devices(), y.Devices(), z.Devices());
    assert (x.CrossSigning() + y.CrossSigning()) + z.CrossSigning()
           == x.CrossSigning() + (y.CrossSigning() + z.CrossSigning());
    AssociativeExactly(x.Failures(), y.Failures(), z.Failures());
    MergedFailuresAreDicts(x, y, z);
  }

  lemma MergedFailuresAreDicts(x: KeysQueryResponse, y: KeysQueryResponse, z: KeysQueryResponse)
    ensures MergeValue(MergeValue(x.Failures(), y.Failures()), z.Failures()).Dict?
    ensures MergeValue(x.Failures(), MergeValue(y.Failures(), z.Failures())).Dict?
  {
  }

  function DevicesAt(a: DeviceMap, u: string): Option<map<string, DeviceInfo>> {
    if u in a then Some(a[u]) else None
  }

  function UnionUser(x: Option<map<string, DeviceInfo>>, y: Option<map<string, DeviceInfo>>)
    : Option<map<string, DeviceInfo>>
  {
    if x.Some? && y.Some? then Some(x.value + y.value) else if x.Some? then x else y
  }

  lemma UnionUserAssociates(x: Option<map<string, DeviceInfo>>, y: Option<map<string, DeviceInfo>>,
                            z: Option<map<string, DeviceInfo>>)
    ensures UnionUser(UnionUser(x, y), z) == UnionUser(x, UnionUser(y, z))
  {
    if x.Some? && y.Some? && z.Some? {
      assert (x.value + y.value) + z.value == x.value + (y.value + z.value);
    }
  }

  lemma UnionAt(a: DeviceMap, b: DeviceMap, u: string)
    ensures DevicesAt(UnionDevices(a, b), u) == UnionUser(DevicesAt(a, u), DevicesAt(b, u))
  {
  }

  lemma UnionAssociates(a: DeviceMap, b: DeviceMap, c: DeviceMap)
    ensures UnionDevices(UnionDevices(a, b), c) == UnionDevices(a, UnionDevices(b, c))
  {
    var l, r := UnionDevices(UnionDevices(a, b), c), UnionDevices(a, UnionDevices(b, c));
    forall u ensures DevicesAt(l, u) == DevicesAt(r, u) {
      UnionAssociatesAt(a, b, c, u);
    }
    SameDevices(l, r);
  }

  lemma UnionAssociatesAt(a: DeviceMap, b: DeviceMap, c: DeviceMap, u: string)
    ensures DevicesAt(UnionDevices(UnionDevices(a, b), c), u) == DevicesAt(UnionDevices(a, UnionDevices(b, c)), u)
  {
    hide *;
    UnionAt(a, b, u);
    UnionAt(b, c, u);
    UnionAt(UnionDevices(a, b), c, u);
    UnionAt(a, UnionDevices(b, c), u);
    UnionUserAssociates(DevicesAt(a, u), DevicesAt(b, u), DevicesAt(c, u));
  }

  lemma SameDevices(a: DeviceMap, b: DeviceMap)
    requires forall u :: DevicesAt(a, u) == DevicesAt(b, u)
    ensures a == b
  {
    forall u ensures u in a <==> u in b {
      assert DevicesAt(a, u) == DevicesAt(b, u);
    }
    forall u | u in a ensures a[u] == b[u] {
      assert DevicesAt(a, u) == DevicesAt(b, u);
    }
  }

  predicate SharedKeysAgree<V(==)>(a: map<string, V>, b: map<string, V>) {
    forall k | k in a && k in b :: a[k] == b[k]
  }

  predicate DevicesAgree(a: DeviceMap, b: DeviceMap) {
    forall u | u in a && u in b :: SharedKeysAgree(a[u], b[u])
  }

  lemma UnionOfMapsCommutes<V>(a: map<string, V>, b: map<string, V>)
    ensures a + b == b + a <==> SharedKeysAgree(a, b)
  {
    if a + b == b + a {
      forall k | k in a && k in b ensures a[k] == b[k] {
        assert (a + b)[k] == (b + a)[k];
      }
    }
  }

  lemma UnionCommutesAt(a: DeviceMap, b: DeviceMap, u: string)
    ensures DevicesAt(UnionDevices(a, b), u) == DevicesAt(UnionDevices(b, a), u) <==>
            (u in a && u in b ==> SharedKeysAgree(a[u], b[u]))
  {
    UnionAt(a, b, u);
    UnionAt(b, a, u);
    hide UnionDevices, SharedKeysAgree;
    if u in a && u in b {
      UnionOfMapsCommutes(a[u], b[u]);
    }
  }

  lemma UnionCommutes(a: DeviceMap, b: DeviceMap)
    ensures UnionDevices(a, b) == UnionDevices(b, a) <==> DevicesAgree(a, b)
  {
    hide UnionDevices, SharedKeysAgree, DevicesAt;
    forall u ensures DevicesAt(UnionDevices(a, b), u) == DevicesAt(UnionDevices(b, a), u) <==>
                     (u in a && u in b ==> SharedKeysAgree(a[u], b[u]))
    {
      UnionCommutesAt(a, b, u);
    }
    if DevicesAgree(a, b) {
      SameDevices(UnionDevices(a, b), UnionDevices(b, a));
    }
  }

  /** The order of the operands is invisible exactly when they say the same about every device, every user's
      cross-signing keys and every failure that both speak of. */
  lemma PlusCommutesExactly(x: KeysQueryResponse, y: KeysQueryResponse)
    ensures Plus(x, y) == Plus(y, x) <==>
            DevicesAgree(x.Devices(), y.Devices()) && SharedKeysAgree(x.CrossSigning(), y.CrossSigning())
            && Agree(x.Failures(), y.Failures())
  {
    UnionCommutes(x.Devices(), y.Devices());
    UnionOfMapsCommutes(x.CrossSigning(), y.CrossSigning());
    CommutativeExactly(x.Failures(), y.Failures());
    PlusSums(x, y);
    PlusSums(y, x);
    hide Plus, UnionDevices, DevicesAgree, SharedKeysAgree, Agree;
  }

  /** `MXResponse`: what a request ends with. */
  datatype Response<T> = Success(result: T) | Failure(error: string)

  /** `MXResponse.+`: once there is an error, the result is an error. */
  function PlusResponse(l: Response<KeysQueryResponse>, r: Response<KeysQueryResponse>): Response<KeysQueryResponse> {
    match (l, r)
    case (Failure(_), _) => l
    case (_, Failure(_)) => r
    case (Success(a), Success(b)) => Success(Plus(a, b))
  }

  /** `responses.reduce(.success(MXKeysQueryResponse()), +)`. */
  function Reduce(responses: seq<Response<KeysQueryResponse>>): Response<KeysQueryResponse> {
    if responses == [] then Success(EMPTY)
    else PlusResponse(Reduce(responses[..|responses| - 1]), responses[|responses| - 1])
  }

  /** The sum fails exactly when some reply did. */
  lemma {:induction false} ReduceFailsExactly(rs: seq<Response<KeysQueryResponse>>)
    ensures Reduce(rs).Success? <==> forall i | 0 <= i < |rs| :: rs[i].Success?
  {
    if rs != [] {
      var init, last := rs[..|rs| - 1], rs[|rs| - 1];
      ReduceFailsExactly(init);
      assert rs == init + [last];
      hide Plus;
      assert Reduce(rs).Success? <==> Reduce(init).Success? && last.Success?;
    }
  }

  /** The error reported is the one of the first reply that failed. */
  lemma {:induction false} ReduceReportsFirstError(rs: seq<Response<KeysQueryResponse>>, i: nat)
    requires i < |rs| && rs[i].Failure? && forall j | 0 <= j < i :: rs[j].Success?
    ensures Reduce(rs) == rs[i]
  {
    var n := |rs| - 1;
    if i < n {
      ReduceReportsFirstError(rs[..n], i);
    } else {
      ReduceFailsExactly(rs[..n]);
    }
  }

  // The homeserver's key directory. It answers each user on its own.
  datatype Directory = Directory(devices: DeviceMap, crossSigning: map<string, CrossSigningInfo>)

  function DevicesOf(dir: Directory, users: set<string>): DeviceMap {
    map u | u in users && u in dir.devices :: dir.devices[u]
  }

  function CrossSigningOf(dir: Directory, users: set<string>): map<string, CrossSigningInfo> {
    map u | u in users && u in dir.crossSigning :: dir.crossSigning[u]
  }

  /** A reply to a request for `users`. Which homeservers failed is not determined by the users. */
  predicate Answers(dir: Directory, users: set<string>, r: KeysQueryResponse) {
    r.Devices() == DevicesOf(dir, users) && r.CrossSigning() == CrossSigningOf(dir, users)
  }

  lemma SharedDevices(dir: Directory, a: set<string>, b: set<string>)
    ensures UnionDevices(DevicesOf(dir, a), DevicesOf(dir, b)) == DevicesOf(dir, a + b)
  {
    var u := UnionDevices(DevicesOf(dir, a), DevicesOf(dir, b));
    forall x | x in u ensures u[x] == DevicesOf(dir, a + b)[x] {
      assert dir.devices[x] + dir.devices[x] == dir.devices[x];
    }
    assert u.Keys == DevicesOf(dir, a + b).Keys;
  }

  /** The sum of two answers answers the union of their users, even where the users overlap. */
  lemma SumAnswers(dir: Directory, a: set<string>, b: set<string>, l: KeysQueryResponse, r: KeysQueryResponse)
    requires Answers(dir, a, l) && Answers(dir, b, r)
    ensures Answers(dir, a + b, Plus(l, r))
  {
    hide Plus, UnionDevices, DevicesOf;
    PlusSums(l, r);
    SharedDevices(dir, a, b);
    assert CrossSigningOf(dir, a) + CrossSigningOf(dir, b) == CrossSigningOf(dir, a + b);
  }

  function Elements<T>(s: seq<T>): (e: set<T>) {
    set x | x in s
  }

  // All the users asked for in some requests.
  function AllUsers(requests: seq<seq<string>>): set<string> {
    if requests == [] then {} else AllUsers(requests[..|requests| - 1]) + Elements(requests[|requests| - 1])
  }

  /** Replies in any order, to any requests, sum up to an answer for all the users of those requests. */
  lemma {:induction false} ReduceAnswers(dir: Directory, requests: seq<seq<string>>,
                                         rs: seq<Response<KeysQueryResponse>>)
    requires |requests| == |rs|
    requires forall i | 0 <= i < |rs| :: rs[i].Success? && Answers(dir, Elements(requests[i]), rs[i].result)
    ensures Reduce(rs).Success? && Answers(dir, AllUsers(requests), Reduce(rs).result)
  {
    if rs == [] {
      assert DevicesOf(dir, {}) == map[] && CrossSigningOf(dir, {}) == map[];
    } else {
      var n := |rs| - 1;
      ReduceAnswers(dir, requests[..n], rs[..n]);
      SumAnswers(dir, AllUsers(requests[..n]), Elements(requests[n]), Reduce(rs[..n]).result, rs[n].result);
    }
  }

  lemma {:induction false} RequestInAllUsers(requests: seq<seq<string>>, i: nat)
    requires i < |requests|
    ensures Elements(requests[i]) <= AllUsers(requests)
  {
    if i < |requests| - 1 {
      RequestInAllUsers(requests[..|requests| - 1], i);
    }
  }

  lemma {:induction false} AllUsersWithin(requests: seq<seq<string>>, bound: set<string>)
    requires forall i | 0 <= i < |requests| :: Elements(requests[i]) <= bound
    ensures AllUsers(requests) <= bound
  {
    if requests != [] {
      AllUsersWithin(requests[..|requests| - 1], bound);
    }
  }

  /** Reordering and repeating requests does not change the users asked for, as long as no request is left out. */
  lemma SameRequestsSameUsers(requests: seq<seq<string>>, others: seq<seq<string>>)
    requires forall i | 0 <= i < |requests| :: requests[i] in others
    requires forall i | 0 <= i < |others| :: others[i] in requests
    ensures AllUsers(requests) == AllUsers(others)
  {
    forall i | 0 <= i < |requests| ensures Elements(requests[i]) <= AllUsers(others) {
      var j :| 0 <= j < |others| && others[j] == requests[i];
      RequestInAllUsers(others, j);
    }
    AllUsersWithin(requests, AllUsers(others));
    forall i | 0 <= i < |others| ensures Elements(others[i]) <= AllUsers(requests) {
      var j :| 0 <= j < |requests| && requests[j] == others[i];
      RequestInAllUsers(requests, j);
    }
    AllUsersWithin(others, AllUsers(requests));
  }

  /** `stride(from: 0, to: count, by: size)` from a given start; a negative step yields nothing. */
  function Chunked<T>(users: seq<T>, size: int): (chunks: seq<seq<T>>)
    requires size != 0
    decreases |users|
  {
    if size < 0 || users == [] then []
    else if |users| <= size then [users]
    else [users[..size]] + Chunked(users[size..], size)
  }

  lemma {:induction false} AllUsersOfSplit(first: seq<string>, rest: seq<seq<string>>)
    ensures AllUsers([first] + rest) == Elements(first) + AllUsers(rest)
  {
    if rest == [] {
      assert AllUsers([first] + rest) == AllUsers([]) + Elements(first) by {
        assert ([first] + rest)[..0] == [];
      }
    } else {
      var n := |rest| - 1;
      AllUsersOfSplit(first, rest[..n]);
      assert ([first] + rest)[..n + 1] == [first] + rest[..n];
    }
  }

  /** For a positive size the chunks ask for exactly the users. */
  lemma {:induction false} ChunksCover(users: seq<string>, size: int)
    requires size > 0
    ensures AllUsers(Chunked(users, size)) == Elements(users)
    decreases |users|
  {
    if users == [] {
    } else if |users| <= size {
      AllUsersOfSplit(users, []);
      assert [users] + [] == [users];
    } else {
      ChunksCover(users[size..], size);
      AllUsersOfSplit(users[..size], Chunked(users[size..], size));
      assert users == users[..size] + users[size..];
    }
  }

  function Joined<T>(chunks: seq<seq<T>>): seq<T> {
    if chunks == [] then [] else chunks[0] + Joined(chunks[1..])
  }

  /** For a positive size the chunks are the users in their order, and all but the last are full. */
  lemma {:induction false} ChunksInOrder<T>(users: seq<T>, size: int)
    requires size > 0
    ensures Joined(Chunked(users, size)) == users
    ensures forall i | 0 <= i < |Chunked(users, size)| - 1 :: |Chunked(users, size)[i]| == size
    decreases |users|
  {
    if |users| > size {
      ChunksInOrder(users[size..], size);
      assert users == users[..size] + users[size..];
      assert ([users[..size]] + Chunked(users[size..], size))[1..] == Chunked(users[size..], size);
    } else if users != [] {
      assert [users][1..] == [];
      assert users + [] == users;
    }
  }

  /** No chunk is empty or longer than the size, and a negative size makes no chunk at all. */
  lemma {:induction false} ChunkSizes<T>(users: seq<T>, size: int)
    requires size != 0
    ensures forall i | 0 <= i < |Chunked(users, size)| :: 0 < |Chunked(users, size)[i]| <= size
    ensures size < 0 ==> Chunked(users, size) == []
    decreases |users|
  {
    if 0 < size < |users| {
      ChunkSizes(users[size..], size);
    }
  }
}
