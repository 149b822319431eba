/** The byte stream that identifies an sdist's logical content: members in raw-name order, each
    regular file framed by eight-byte lengths. */
module SdistDigest {
  import opened Options
  import opened Ordering

  type Byte = n: int | 0 <= n < 256

  datatype Kind = Directory | Regular | Other

  datatype Member = Member(name: string, kind: Kind, payload: seq<Byte>)

  datatype Record = Record(name: seq<Byte>, payload: seq<Byte>)

  datatype SdistError = UnsafeName(name: string) | DuplicateName(name: string) | NonRegular(name: string) | TooLong

  datatype Digested = Fed(stream: seq<Byte>) | Rejected(error: SdistError)

  // ---------------------------------------------------------------- normal paths

  /** The pieces between slashes; the empty string has one empty piece. */
  function Split(s: string): (parts: seq<string>)
    ensures |parts| >= 1
    ensures forall p | p in parts :: '/' !in p
  {
    if s == "" then [""]
    else if s[0] == '/' then [""] + Split(s[1..])
    else var rest := Split(s[1..]); [[s[0]] + rest[0]] + rest[1..]
  }

  function Join(parts: seq<string>): string {
    if parts == [] then "" else if |parts| == 1 then parts[0] else parts[0] + "/" + Join(parts[1..])
  }

  /** Only leading pieces may climb. */
  predicate Climbing(kept: seq<string>) { forall i, j | 0 <= i < j < |kept| :: kept[j] == ".." ==> kept[i] == ".." }

  predicate Meaningful(p: string) { p != "" && p != "." && '/' !in p }

  function FoldParts(parts: seq<string>, kept: seq<string>, rooted: bool): (r: seq<string>)
    requires Climbing(kept) && (forall p | p in kept :: Meaningful(p)) && (forall p | p in parts :: '/' !in p)
    ensures Climbing(r) && (forall p | p in r :: Meaningful(p))
    decreases |parts|
  {
    if parts == [] then kept
    else
      var c := parts[0];
      var next :=
        if c == "" || c == "." then kept
        else if c != ".." || (!rooted && kept == []) || (kept != [] && kept[|kept| - 1] == "..") then kept + [c]
        else if kept != [] then kept[..|kept| - 1]
        else kept;
      FoldParts(parts[1..], next, rooted)
  }

  /** POSIX keeps exactly two leading slashes apart from one or many. */
  function Root(s: string): string {
    if "//" <= s && !("///" <= s) then "//" else if "/" <= s then "/" else ""
  }

  function Parts(s: string): seq<string> { FoldParts(Split(s), [], Root(s) != "") }

  function Normpath(s: string): string {
    var path := Root(s) + Join(Parts(s));
    if path == "" then "." else path
  }

  predicate Safe(name: string) {
    var n := Normpath(name);
    n != "." && n != ".." && !("../" <= n) && !("/" <= n)
  }

  lemma JoinStarts(parts: seq<string>)
    requires forall p | p in parts :: Meaningful(p)
    ensures parts == [] <==> Join(parts) == ""
    ensures parts != [] ==> Join(parts) != "." && !("/" <= Join(parts))
    ensures parts != [] && parts[0] == ".." ==> Join(parts) == ".." || "../" <= Join(parts)
    ensures parts != [] && parts[0] != ".." ==> Join(parts) != ".." && !("../" <= Join(parts))
  {
    if parts != [] {
      var head := parts[0];
      assert Meaningful(head);
      assert head[0] in head;
      assert head <= Join(parts);
      if |parts| > 1 { assert head + "/" <= Join(parts); assert Join(parts)[|head|] == '/'; }
      assert |head| > 2 ==> Join(parts)[2] == head[2] && head[2] in head;
      assert |head| == 1 ==> head == [head[0]] && head[0] != '.';
      assert |head| == 2 ==> head == [head[0], head[1]];
    }
  }

  /** The textual test accepts exactly the relative paths that stay below their start. */
  lemma SafeIff(name: string)
    ensures Safe(name) <==> !("/" <= name) && Parts(name) != [] && Parts(name)[0] != ".."
  {
    JoinStarts(Parts(name));
    if !("/" <= name) { assert Root(name) == ""; assert Root(name) + Join(Parts(name)) == Join(Parts(name)); }
  }

  lemma {:induction false} SplitPrefix(p: string, rest: string)
    requires '/' !in p
    ensures Split(p + "/" + rest) == [p] + Split(rest)
  {
    var s := p + "/" + rest;
    if p == "" { assert s[1..] == rest; }
    else {
      assert s[0] == p[0] && p[0] in p && [p[0]] + p[1..] == p;
      assert s[1..] == p[1..] + "/" + rest;
      SplitPrefix(p[1..], rest);
    }
  }

  lemma {:induction false} SplitPiece(p: string)
    requires '/' !in p
    ensures Split(p) == [p]
  {
    if p != "" { assert p[0] in p; SplitPiece(p[1..]); assert [p[0]] + p[1..] == p; }
  }

  lemma {:induction false} SplitJoin(parts: seq<string>)
    requires parts != [] && forall p | p in parts :: '/' !in p
    ensures Split(Join(parts)) == parts
  {
    assert parts == [parts[0]] + parts[1..];
    if |parts| == 1 { SplitPiece(parts[0]); }
    else { SplitJoin(parts[1..]); SplitPrefix(parts[0], Join(parts[1..])); }
  }

  lemma {:induction false} FoldKeeps(parts: seq<string>, kept: seq<string>)
    requires Climbing(kept) && (forall p | p in kept :: Meaningful(p))
    requires forall p | p in parts :: Meaningful(p) && '/' !in p && p != ".."
    ensures FoldParts(parts, kept, false) == kept + parts
    decreases |parts|
  {
    if parts != [] {
      assert parts[0] in parts;
      var next := kept + [parts[0]];
      assert forall j | 0 <= j < |kept| :: next[j] == kept[j];
      FoldKeeps(parts[1..], next);
      assert kept + [parts[0]] + parts[1..] == kept + parts;
    }
  }

  /** Joined meaningful pieces that do not climb are in normal form. */
  lemma JoinedIsNormal(parts: seq<string>)
    requires parts != [] && forall p | p in parts :: Meaningful(p) && '/' !in p && p != ".."
    ensures Root(Join(parts)) == "" && Parts(Join(parts)) == parts && Normpath(Join(parts)) == Join(parts)
  {
    hide Split, FoldParts, Join;
    JoinStarts(parts);
    SplitJoin(parts);
    FoldKeeps(parts, []);
    assert [] + parts == parts && "" + Join(parts) == Join(parts);
  }

  /** An accepted name is in normal form once normalised. */
  lemma NormpathSettles(name: string)
    requires Safe(name)
    ensures Normpath(Normpath(name)) == Normpath(name) && Safe(Normpath(name))
  {
    hide Split, FoldParts, Join;
    SafeIff(name);
    var parts := Parts(name);
    JoinStarts(parts);
    assert "" + Join(parts) == Join(parts);
    assert forall p | p in parts :: Meaningful(p) && '/' !in p && p != "..";
    JoinedIsNormal(parts);
  }

  // -------------------------------------------------------------------- framing

  const WIDTH_LIMIT: int := 0x1_0000_0000_0000_0000

  function Pow256(w: nat): (p: nat)
    ensures p > 0
  {
    if w == 0 then 1 else 256 * Pow256(w - 1)
  }

  function BigEndian(n: nat, w: nat): (b: seq<Byte>)
    ensures |b| == w
    decreases w
  {
    if w == 0 then [] else BigEndian(n / 256, w - 1) + [n % 256]
  }

  function FromBigEndian(b: seq<Byte>): nat {
    if b == [] then 0 else 256 * FromBigEndian(b[..|b| - 1]) + b[|b| - 1]
  }

  lemma {:induction false} BigEndianRoundTrip(n: nat, w: nat)
    requires n < Pow256(w)
    ensures FromBigEndian(BigEndian(n, w)) == n
    decreases w
  {
    if w > 0 {
      BigEndianRoundTrip(n / 256, w - 1);
      var b := BigEndian(n, w);
      assert b[..w - 1] == BigEndian(n / 256, w - 1);
    }
  }

  lemma {:induction false} BigEndianOnto(b: seq<Byte>)
    ensures FromBigEndian(b) < Pow256(|b|) && BigEndian(FromBigEndian(b), |b|) == b
  {
    if b != [] {
      BigEndianOnto(b[..|b| - 1]);
      assert b[..|b| - 1] + [b[|b| - 1]] == b;
    }
  }

  /** The most significant byte comes first. */
  lemma {:induction false} BigEndianByte(n: nat, w: nat, k: nat)
    requires k < w
    ensures BigEndian(n, w)[w - 1 - k] == (n / Pow256(k)) % 256
    decreases w
  {
    if k == 0 {
      assert n / 1 == n;
    } else {
      BigEndianByte(n / 256, w - 1, k - 1);
      DivideTwice(n, Pow256(k - 1));
    }
  }

  lemma DivideTwice(n: nat, p: nat)
    requires p > 0
    ensures (n / 256) / p == n / (256 * p)
  {
    var q, r := n / (256 * p), n % (256 * p);
    var a, b := r / 256, r % 256;
    assert n == 256 * (p * q + a) + b;
    assert n / 256 == p * q + a;
    assert 0 <= a < p;
    assert (p * q + a) / p == q by { Quotient(p * q + a, p, q, a); }
  }

  lemma Quotient(n: nat, p: nat, q: nat, r: nat)
    requires p > 0 && r < p && n == p * q + r
    ensures n / p == q
  {
    var d := n / p;
    assert p * d <= n < p * d + p;
    SmallerFactor(p, d, q + 1);
    SmallerFactor(p, q, d + 1);
  }

  lemma SmallerFactor(p: nat, a: nat, b: nat)
    requires p * a < p * b
    ensures a < b
  {
  }

  lemma EightBytes()
    ensures Pow256(8) == WIDTH_LIMIT
  {
    assert Pow256(2) == 0x1_0000;
    assert Pow256(4) == 0x1_0000_0000;
    assert Pow256(6) == 0x1_0000_0000_0000;
  }

  predicate Fits(bytes: seq<Byte>) { |bytes| < WIDTH_LIMIT }

  function Field(bytes: seq<Byte>): seq<Byte> { BigEndian(|bytes|, 8) + bytes }

  function Encode(records: seq<Record>): seq<Byte> {
    if records == [] then [] else Field(records[0].name) + Field(records[0].payload) + Encode(records[1..])
  }

  predicate AllFit(records: seq<Record>) { forall r | r in records :: Fits(r.name) && Fits(r.payload) }

  datatype Taken = Taken(field: seq<Byte>, rest: seq<Byte>)

  function Take(b: seq<Byte>): (t: Option<Taken>)
    ensures t.Some? ==> |t.value.rest| < |b|
  {
    if |b| < 8 then None
    else
      var n := FromBigEndian(b[..8]);
      if |b| < 8 + n then None else Some(Taken(b[8..8 + n], b[8 + n..]))
  }

  function Decode(b: seq<Byte>): Option<seq<Record>>
    decreases |b|
  {
    if b == [] then Some([])
    else
      var name := Take(b);
      if name.None? then None
      else
        var payload := Take(name.value.rest);
        if payload.None? then None
        else
          var tail := Decode(payload.value.rest);
          if tail.None? then None else Some([Record(name.value.field, payload.value.field)] + tail.value)
  }

  lemma TakeField(bytes: seq<Byte>, rest: seq<Byte>)
    requires Fits(bytes)
    ensures Take(Field(bytes) + rest) == Some(Taken(bytes, rest))
  {
    hide BigEndian, FromBigEndian, Pow256;
    EightBytes();
    BigEndianRoundTrip(|bytes|, 8);
    var b := Field(bytes) + rest;
    assert b[..8] == BigEndian(|bytes|, 8);
    assert b[8..8 + |bytes|] == bytes && b[8 + |bytes|..] == rest;
  }

  lemma FieldTaken(b: seq<Byte>)
    requires Take(b).Some?
    ensures Fits(Take(b).value.field) && Field(Take(b).value.field) + Take(b).value.rest == b
  {
    hide BigEndian, FromBigEndian, Pow256;
    EightBytes();
    BigEndianOnto(b[..8]);
    var n := FromBigEndian(b[..8]);
    var taken := b[8..8 + n];
    assert |taken| == n && Field(taken) == b[..8] + taken;
    assert b == b[..8] + taken + b[8 + n..];
  }

  /** The framing can be read back. */
  lemma {:induction false} DecodeEncode(records: seq<Record>)
    requires AllFit(records)
    ensures Decode(Encode(records)) == Some(records)
  {
    hide Take, Field;
    if records != [] {
      var r := records[0];
      assert Fits(r.name) && Fits(r.payload);
      DecodeEncode(records[1..]);
      var tail := Encode(records[1..]);
      TakeField(r.payload, tail);
      TakeField(r.name, Field(r.payload) + tail);
      assert Encode(records) == Field(r.name) + (Field(r.payload) + tail);
      assert [Record(r.name, r.payload)] + records[1..] == records;
    }
  }

  /** Whatever can be read is the framing of what was read. */
  lemma {:induction false} EncodeDecode(b: seq<Byte>)
    ensures Decode(b).Some? ==> AllFit(Decode(b).value) && Encode(Decode(b).value) == b
    decreases |b|
  {
    hide Take, Field;
    if b != [] && Take(b).Some? && Take(Take(b).value.rest).Some? {
      var name := Take(b).value;
      var payload := Take(name.rest).value;
      FieldTaken(b);
      FieldTaken(name.rest);
      EncodeDecode(payload.rest);
      if Decode(payload.rest).Some? {
        var rest := Decode(payload.rest).value;
        var all := [Record(name.field, payload.field)] + rest;
        assert all[1..] == rest && Decode(b) == Some(all);
        assert Field(name.field) + Field(payload.field) + payload.rest ==
               Field(name.field) + (Field(payload.field) + payload.rest);
      }
    }
  }

  lemma EncodeInjective(a: seq<Record>, b: seq<Record>)
    requires AllFit(a) && AllFit(b) && Encode(a) == Encode(b)
    ensures a == b
  {
    DecodeEncode(a);
    DecodeEncode(b);
  }

  lemma {:induction false} EncodeAppend(a: seq<Record>, r: Record)
    ensures Encode(a + [r]) == Encode(a) + Field(r.name) + Field(r.payload)
  {
    hide Field;
    if a == [] { assert a + [r] == [r]; assert [r][1..] == []; }
    else {
      EncodeAppend(a[1..], r);
      assert (a + [r])[1..] == a[1..] + [r];
    }
  }

  // ------------------------------------------------------------------ the archive

  predicate MemberLe(a: Member, b: Member) { StringLe(a.name, b.name) }

  lemma MemberOrder()
    ensures TotalPreorder(MemberLe)
  {
    StringOrder();
    forall a, b ensures TotalAt(MemberLe, a, b) { assert TotalAt(StringLe, a.name, b.name); }
    forall a, b, c ensures TransitiveAt(MemberLe, a, b, c) { assert TransitiveAt(StringLe, a.name, b.name, c.name); }
  }

  /** Members in the order the digest visits them: by the name as stored in the archive. */
  function Visited(members: seq<Member>): (r: seq<Member>)
    ensures Sorted(MemberLe, r) && multiset(r) == multiset(members)
  {
    MemberOrder();
    Sort(MemberLe, members)
  }

  predicate MemberFits(m: Member, encode: string -> seq<Byte>) {
    m.kind.Regular? ==> Fits(encode(Normpath(m.name))) && Fits(m.payload)
  }

  /** What is wrong with the `k`-th visited member, if anything. */
  function Problem(visited: seq<Member>, k: nat, encode: string -> seq<Byte>): Option<SdistError>
    requires k < |visited|
  {
    var m := visited[k];
    if !Safe(m.name) then Some(UnsafeName(m.name))
    else if exists i | 0 <= i < k :: Normpath(visited[i].name) == Normpath(m.name) then
      Some(DuplicateName(Normpath(m.name)))
    else if m.kind.Other? then Some(NonRegular(Normpath(m.name)))
    else if !MemberFits(m, encode) then Some(TooLong)
    else None
  }

  ghost predicate FirstProblem(visited: seq<Member>, k: nat, error: SdistError, encode: string -> seq<Byte>) {
    && k < |visited| && Problem(visited, k, encode) == Some(error)
    && forall i | 0 <= i < k :: Problem(visited, i, encode) == None
  }

  function RecordOf(m: Member, encode: string -> seq<Byte>): Record { Record(encode(Normpath(m.name)), m.payload) }

  function Records(visited: seq<Member>, encode: string -> seq<Byte>): seq<Record> {
    if visited == [] then []
    else
      var m := visited[|visited| - 1];
      Records(visited[..|visited| - 1], encode) + if m.kind.Regular? then [RecordOf(m, encode)] else []
  }

  function StreamOf(visited: seq<Member>, encode: string -> seq<Byte>): seq<Byte> { Encode(Records(visited, encode)) }

  lemma NoStream(visited: seq<Member>, encode: string -> seq<Byte>)
    ensures StreamOf(visited[..0], encode) == []
  {
  }

  lemma NextStream(visited: seq<Member>, k: nat, encode: string -> seq<Byte>)
    requires k < |visited|
    ensures var m, before := visited[k], StreamOf(visited[..k], encode);
            StreamOf(visited[..k + 1], encode) ==
            if m.kind.Regular? then before + Field(encode(Normpath(m.name))) + Field(m.payload) else before
  {
    hide Normpath, Field, Encode;
    var m := visited[k];
    assert visited[..k + 1][..k] == visited[..k];
    EncodeAppend(Records(visited[..k], encode), RecordOf(m, encode));
    assert Records(visited[..k], encode) + [] == Records(visited[..k], encode);
  }

  /** Everything an archive needs for its content to be digested, with no order in it. */
  ghost predicate Acceptable(members: seq<Member>, encode: string -> seq<Byte>) {
    && (forall m | m in members :: Safe(m.name) && !m.kind.Other? && MemberFits(m, encode))
    && Distinct(members)
    && (forall m, n | m in members && n in members && Normpath(m.name) == Normpath(n.name) :: m == n)
  }

  /** `_sdist_content_sha256` up to the hash. A rejection names the first problem in visiting order. */
  method SdistStream(members: seq<Member>, encode: string -> seq<Byte>) returns (r: Digested)
    ensures r.Fed? ==> r.stream == StreamOf(Visited(members), encode)
    ensures r.Fed? <==> forall k | 0 <= k < |Visited(members)| :: Problem(Visited(members), k, encode) == None
    ensures r.Rejected? ==> exists k :: FirstProblem(Visited(members), k, r.error, encode)
  {
    hide Normpath, Safe, Field, Visited, Sort, StreamOf;
    var visited := Visited(members);
    var names: set<string> := {};
    var stream: seq<Byte> := [];
    NoStream(visited, encode);
    var k := 0;
    while k < |visited|
      invariant 0 <= k <= |visited|
      invariant names == set i | 0 <= i < k :: Normpath(visited[i].name)
      invariant forall i | 0 <= i < k :: Problem(visited, i, encode) == None
      invariant stream == StreamOf(visited[..k], encode)
    {
      var m := visited[k];
      var name := Normpath(m.name);
      ghost var problem := Problem(visited, k, encode);
      assert problem.Some? ==> FirstProblem(visited, k, problem.value, encode);
      if !Safe(m.name) { return Rejected(UnsafeName(m.name)); }
      assert name in names <==> exists i | 0 <= i < k :: Normpath(visited[i].name) == name;
      if name in names { return Rejected(DuplicateName(name)); }
      names := names + {name};
      NextStream(visited, k, encode);
      if !m.kind.Directory? {
        if !m.kind.Regular? { return Rejected(NonRegular(name)); }
        var encoded := encode(name);
        if |encoded| >= WIDTH_LIMIT || |m.payload| >= WIDTH_LIMIT { return Rejected(TooLong); }
        stream := stream + Field(encoded) + Field(m.payload);
      }
      k := k + 1;
    }
    assert visited[..k] == visited;
    return Fed(stream);
  }

  // ------------------------------------------------------------- order of members

  lemma NoProblemIff(visited: seq<Member>, encode: string -> seq<Byte>)
    ensures (forall k | 0 <= k < |visited| :: Problem(visited, k, encode) == None) <==> Acceptable(visited, encode)
  {
    hide Normpath, Safe, MemberFits;
    if forall k | 0 <= k < |visited| :: Problem(visited, k, encode) == None {
      forall i, j | 0 <= i < j < |visited| ensures Normpath(visited[i].name) != Normpath(visited[j].name) {
        assert Problem(visited, j, encode) == None;
      }
      forall m | m in visited ensures Safe(m.name) && !m.kind.Other? && MemberFits(m, encode) {
        var k :| 0 <= k < |visited| && visited[k] == m;
        assert Problem(visited, k, encode) == None;
      }
    }
    if Acceptable(visited, encode) {
      forall k | 0 <= k < |visited| ensures Problem(visited, k, encode) == None {
        assert visited[k] in visited;
        forall i | 0 <= i < k ensures Normpath(visited[i].name) != Normpath(visited[k].name) {
          assert visited[i] in visited && visited[i] != visited[k];
        }
      }
    }
  }

  /** A rejection is about a member before which all others are in order, and says what is wrong
      with it: climbing out, a name seen before, neither file nor directory, or too long to frame. */
  lemma RejectionMeans(visited: seq<Member>, k: nat, error: SdistError, encode: string -> seq<Byte>)
    requires FirstProblem(visited, k, error, encode)
    ensures Acceptable(visited[..k], encode)
    ensures match error
            case UnsafeName(name) => name == visited[k].name && !Safe(name)
            case DuplicateName(name) =>
              && Safe(visited[k].name) && name == Normpath(visited[k].name)
              && exists m | m in visited[..k] :: Normpath(m.name) == name
            case NonRegular(name) =>
              && Safe(visited[k].name) && name == Normpath(visited[k].name) && visited[k].kind.Other?
              && forall m | m in visited[..k] :: Normpath(m.name) != name
            case TooLong =>
              && Safe(visited[k].name) && visited[k].kind.Regular?
              && (!Fits(encode(Normpath(visited[k].name))) || !Fits(visited[k].payload))
  {
    hide Normpath, Safe, Fits;
    var before := visited[..k];
    forall i | 0 <= i < k ensures Problem(before, i, encode) == None {
      assert Problem(visited, i, encode) == None;
      assert forall j | 0 <= j <= i :: before[j] == visited[j];
    }
    NoProblemIff(before, encode);
    if i :| 0 <= i < k && Normpath(visited[i].name) == Normpath(visited[k].name) { assert before[i] in before; }
    forall m | m in before && Normpath(m.name) == Normpath(visited[k].name)
      ensures exists i | 0 <= i < k :: Normpath(visited[i].name) == Normpath(visited[k].name)
    {
      var i :| 0 <= i < k && before[i] == m;
      assert visited[i] == m;
    }
  }

  lemma AcceptableAnyOrder(a: seq<Member>, b: seq<Member>, encode: string -> seq<Byte>)
    requires multiset(a) == multiset(b) && Acceptable(a, encode)
    ensures Acceptable(b, encode)
  {
    hide Normpath, Safe, MemberFits;
    DistinctFromMultiset(a);
    DistinctFromMultiset(b);
    SameMultisetSameElements(a, b);
    forall m | m in b ensures m in a { assert m in Elements(b); }
  }

  /** The archive's order never decides whether it is digested. */
  lemma AcceptedIff(members: seq<Member>, encode: string -> seq<Byte>)
    ensures (forall k | 0 <= k < |Visited(members)| :: Problem(Visited(members), k, encode) == None)
            <==> Acceptable(members, encode)
  {
    hide Problem, Acceptable, Visited;
    NoProblemIff(Visited(members), encode);
    if Acceptable(members, encode) { AcceptableAnyOrder(members, Visited(members), encode); }
    if Acceptable(Visited(members), encode) { AcceptableAnyOrder(Visited(members), members, encode); }
  }

  function Names(s: seq<Member>): (r: seq<string>)
    ensures |r| == |s| && forall i | 0 <= i < |r| :: r[i] == s[i].name
  {
    seq(|s|, i requires 0 <= i < |s| => s[i].name)
  }

  lemma NamesStrict(v: seq<Member>, encode: string -> seq<Byte>)
    requires Acceptable(v, encode) && Sorted(MemberLe, v)
    ensures StrictlySorted(StringLe, Names(v))
  {
    hide Normpath, Safe, MemberFits;
    forall i, j | 0 <= i < j < |v| ensures StringLe(Names(v)[i], Names(v)[j]) && Names(v)[i] != Names(v)[j] {
      assert MemberLe(v[i], v[j]);
      assert v[i] in v && v[j] in v && v[i] != v[j];
    }
  }

  lemma SameNames(v: seq<Member>, w: seq<Member>)
    requires multiset(v) == multiset(w)
    ensures Elements(Names(v)) <= Elements(Names(w))
  {
    forall n | n in Names(v) ensures n in Names(w) {
      var i :| 0 <= i < |v| && Names(v)[i] == n;
      assert v[i] in multiset(w);
      var j :| 0 <= j < |w| && w[j] == v[i];
      assert Names(w)[j] == n;
    }
  }

  lemma SortedMembersUnique(v: seq<Member>, w: seq<Member>, encode: string -> seq<Byte>)
    requires multiset(v) == multiset(w) && Acceptable(v, encode) && Sorted(MemberLe, v) && Sorted(MemberLe, w)
    ensures v == w
  {
    hide Normpath, Safe, MemberFits;
    AcceptableAnyOrder(v, w, encode);
    NamesStrict(v, encode);
    NamesStrict(w, encode);
    SameNames(v, w);
    SameNames(w, v);
    StringOrder();
    SortedListUnique(StringLe, Names(v), Names(w));
    assert |v| == |Names(v)| == |w|;
    forall i | 0 <= i < |v| ensures v[i] == w[i] {
      assert Names(v)[i] == Names(w)[i];
      assert v[i] in multiset(w) && w[i] in multiset(w);
      assert v[i] in w && w[i] in w;
    }
  }

  /** Any reordering of an accepted archive feeds the digest the same bytes. */
  lemma ArchiveOrderIrrelevant(a: seq<Member>, b: seq<Member>, encode: string -> seq<Byte>)
    requires multiset(a) == multiset(b) && Acceptable(a, encode)
    ensures Acceptable(b, encode) && Visited(a) == Visited(b)
    ensures StreamOf(Visited(a), encode) == StreamOf(Visited(b), encode)
  {
    hide Normpath, Safe, MemberFits, Visited, StreamOf;
    AcceptableAnyOrder(a, b, encode);
    AcceptableAnyOrder(a, Visited(a), encode);
    SortedMembersUnique(Visited(a), Visited(b), encode);
  }

  // --------------------------------------------------------------- what is equal

  datatype File = File(name: string, payload: seq<Byte>)

  /** The regular files in visiting order, under their normal names. */
  function Files(visited: seq<Member>): seq<File> {
    if visited == [] then []
    else
      var m := visited[|visited| - 1];
      Files(visited[..|visited| - 1]) + if m.kind.Regular? then [File(Normpath(m.name), m.payload)] else []
  }

  ghost predicate Injective(encode: string -> seq<Byte>) { forall a, b | encode(a) == encode(b) :: a == b }

  lemma {:induction false} RecordsOfFiles(visited: seq<Member>, encode: string -> seq<Byte>)
    ensures |Records(visited, encode)| == |Files(visited)|
    ensures forall i | 0 <= i < |Files(visited)| ::
              Records(visited, encode)[i] == Record(encode(Files(visited)[i].name), Files(visited)[i].payload)
  {
    hide Normpath;
    if visited != [] { RecordsOfFiles(visited[..|visited| - 1], encode); }
  }

  lemma {:induction false} FilesFrom(visited: seq<Member>)
    ensures forall f :: f in Files(visited) <==>
            exists m | m in visited :: m.kind.Regular? && f == File(Normpath(m.name), m.payload)
  {
    hide Normpath;
    if visited != [] {
      var front, last := visited[..|visited| - 1], visited[|visited| - 1];
      FilesFrom(front);
      assert visited == front + [last];
      assert last in visited;
    }
  }

  lemma RecordsFit(members: seq<Member>, encode: string -> seq<Byte>)
    requires Acceptable(members, encode)
    ensures AllFit(Records(members, encode))
  {
    hide Normpath, Safe;
    RecordsOfFiles(members, encode);
    FilesFrom(members);
    forall r | r in Records(members, encode) ensures Fits(r.name) && Fits(r.payload) {
      var i :| 0 <= i < |Files(members)| && Records(members, encode)[i] == r;
      assert Files(members)[i] in Files(members);
    }
  }

  /** Two accepted archives feed the digest the same bytes exactly when they hold the same
      regular files, by normal name and content, in the same visiting order. */
  lemma SameStreamIff(a: seq<Member>, b: seq<Member>, encode: string -> seq<Byte>)
    requires Acceptable(a, encode) && Acceptable(b, encode) && Injective(encode)
    ensures StreamOf(Visited(a), encode) == StreamOf(Visited(b), encode) <==> Files(Visited(a)) == Files(Visited(b))
  {
    hide Normpath, Safe, MemberFits, Visited, Acceptable, Encode, Records, Files, Fits, AllFit;
    var v, w := Visited(a), Visited(b);
    AcceptableAnyOrder(a, v, encode);
    AcceptableAnyOrder(b, w, encode);
    RecordsOfFiles(v, encode);
    RecordsOfFiles(w, encode);
    if StreamOf(v, encode) == StreamOf(w, encode) {
      RecordsFit(v, encode);
      RecordsFit(w, encode);
      EncodeInjective(Records(v, encode), Records(w, encode));
      forall i | 0 <= i < |Files(v)| ensures Files(v)[i] == Files(w)[i] {
        assert Records(v, encode)[i] == Records(w, encode)[i];
      }
    }
    if Files(v) == Files(w) { assert Records(v, encode) == Records(w, encode); }
  }

  /** The regular files come in the order of their normal names. */
  ghost predicate NormalOrder(members: seq<Member>) {
    var files := Files(Visited(members));
    forall i, j | 0 <= i < j < |files| :: StringLe(files[i].name, files[j].name)
  }

  function Content(members: seq<Member>): set<File> {
    set m | m in members && m.kind.Regular? :: File(Normpath(m.name), m.payload)
  }

  lemma {:induction false} FileNamesDistinct(visited: seq<Member>, encode: string -> seq<Byte>)
    requires Acceptable(visited, encode)
    ensures forall i, j | 0 <= i < j < |Files(visited)| :: Files(visited)[i].name != Files(visited)[j].name
  {
    hide Normpath, Safe, MemberFits;
    if visited != [] {
      var front, last := visited[..|visited| - 1], visited[|visited| - 1];
      assert visited == front + [last];
      assert forall m | m in front :: m in visited;
      FileNamesDistinct(front, encode);
      FilesFrom(front);
      forall f | f in Files(front) ensures f.name != Normpath(last.name) {
        var m :| m in front && f == File(Normpath(m.name), m.payload);
        assert last in visited && m in visited && last !in front;
      }
    }
  }

  function FileNames(files: seq<File>): (r: seq<string>)
    ensures |r| == |files| && forall i | 0 <= i < |r| :: r[i] == files[i].name
  {
    seq(|files|, i requires 0 <= i < |files| => files[i].name)
  }

  lemma NormalFiles(members: seq<Member>, encode: string -> seq<Byte>)
    requires Acceptable(members, encode)
    ensures forall f :: f in Files(Visited(members)) <==> f in Content(members)
    ensures NormalOrder(members) ==> StrictlySorted(StringLe, FileNames(Files(Visited(members))))
    ensures Elements(FileNames(Files(Visited(members)))) == set f | f in Content(members) :: f.name
  {
    hide Normpath, Safe, MemberFits, Visited, Files, StringLe;
    var v := Visited(members);
    AcceptableAnyOrder(members, v, encode);
    FilesFrom(v);
    FileNamesDistinct(v, encode);
    SameMultisetSameElements(v, members);
    assert forall m :: m in v <==> m in Elements(v);
    assert forall m :: m in members <==> m in Elements(members);
    var names := FileNames(Files(v));
    forall f | f in Content(members) ensures f.name in names {
      var m :| m in members && m.kind.Regular? && f == File(Normpath(m.name), m.payload);
      assert m in v && f in Files(v);
      var i :| 0 <= i < |Files(v)| && Files(v)[i] == f;
      assert names[i] == f.name;
    }
    forall n | n in names ensures n in (set f | f in Content(members) :: f.name) {
      var i :| 0 <= i < |names| && names[i] == n;
      assert Files(v)[i] in Files(v);
    }
  }

  lemma NormalFilesUnique(a: seq<Member>, b: seq<Member>, encode: string -> seq<Byte>)
    requires Acceptable(a, encode) && Acceptable(b, encode) && Content(a) == Content(b) && NormalOrder(a)
               && NormalOrder(b)
    ensures Files(Visited(a)) == Files(Visited(b))
  {
    hide Normpath, Safe, MemberFits, Visited, Files, StringLe, Acceptable, NormalOrder, Content;
    NormalFiles(a, encode);
    NormalFiles(b, encode);
    StringOrder();
    var f, g := Files(Visited(a)), Files(Visited(b));
    SortedListUnique(StringLe, FileNames(f), FileNames(g));
    AcceptableAnyOrder(b, Visited(b), encode);
    FileNamesDistinct(Visited(b), encode);
    forall i | 0 <= i < |f| ensures f[i] == g[i] {
      assert f[i] in f && f[i] in g;
      var j :| 0 <= j < |g| && g[j] == f[i];
      assert FileNames(f)[i] == FileNames(g)[i];
      assert i == j;
    }
  }

  /** Equal content means equal bytes only up to how member names are spelled: against an archive
      in normal order, an archive with the same files gives the same bytes exactly when its own
      raw-name order is the normal order. */
  lemma SameContentSameStreamIff(a: seq<Member>, b: seq<Member>, encode: string -> seq<Byte>)
    requires Acceptable(a, encode) && Acceptable(b, encode) && Injective(encode)
    requires Content(a) == Content(b) && NormalOrder(b)
    ensures StreamOf(Visited(a), encode) == StreamOf(Visited(b), encode) <==> NormalOrder(a)
  {
    hide Visited, Files, StringLe, Acceptable, Content, StreamOf;
    SameStreamIff(a, b, encode);
    if NormalOrder(a) { NormalFilesUnique(a, b, encode); }
  }

  /** Archives whose names are already normal are in normal order. */
  lemma NormalNamesNormalOrder(members: seq<Member>)
    requires forall m | m in members :: Normpath(m.name) == m.name
    ensures NormalOrder(members)
  {
    hide Normpath, StringLe, Visited;
    var v := Visited(members);
    SameMultisetSameElements(v, members);
    assert forall m :: m in v ==> m in Elements(v);
    FilesSorted(v);
  }

  lemma {:induction false} FilesSorted(v: seq<Member>)
    requires Sorted(MemberLe, v) && forall m | m in v :: Normpath(m.name) == m.name
    ensures forall i, j | 0 <= i < j < |Files(v)| :: StringLe(Files(v)[i].name, Files(v)[j].name)
  {
    hide Normpath, StringLe;
    if v != [] {
      var front, last := v[..|v| - 1], v[|v| - 1];
      assert v == front + [last];
      assert forall m | m in front :: m in v;
      FilesSorted(front);
      FilesFrom(front);
      forall f | f in Files(front) ensures StringLe(f.name, Normpath(last.name)) {
        var m :| m in front && f == File(Normpath(m.name), m.payload);
        var i :| 0 <= i < |front| && front[i] == m;
        assert MemberLe(v[i], v[|v| - 1]);
      }
    }
  }

  // ------------------------------------------------- one content, two digests

  const B := "p-1/b"
  const INFO := "p-1/PKG-INFO"
  const A := "p-1/a"

  /** An sdist with its metadata file and two others, one of them spelled with a leading `./`. */
  function Dotted(info: seq<Byte>): seq<Member> {
    [Member("./" + B, Regular, []), Member(INFO, Regular, info), Member(A, Regular, [1])]
  }

  function Plain(info: seq<Byte>): seq<Member> {
    [Member(INFO, Regular, info), Member(A, Regular, [1]), Member(B, Regular, [])]
  }

  /** Whatever the metadata, both archives are accepted, hold the same files and differ in bytes. */
  lemma SpellingChangesStream(info: seq<Byte>, encode: string -> seq<Byte>)
    requires Injective(encode) && Fits(info) && Fits(encode(INFO)) && Fits(encode(A)) && Fits(encode(B))
    ensures Acceptable(Dotted(info), encode) && Acceptable(Plain(info), encode)
    ensures Content(Dotted(info)) == Content(Plain(info))
    ensures StreamOf(Visited(Dotted(info)), encode) != StreamOf(Visited(Plain(info)), encode)
  {
    hide Normpath, Visited, StreamOf, Safe, Content, NormalOrder, Acceptable;
    SpelledNames();
    SpelledAccepted(info, encode);
    forall m | m in Plain(info) ensures Normpath(m.name) == m.name {}
    NormalNamesNormalOrder(Plain(info));
    DottedOrder(info, encode);
    SameContentSameStreamIff(Dotted(info), Plain(info), encode);
  }

  lemma SpelledAccepted(info: seq<Byte>, encode: string -> seq<Byte>)
    requires Fits(info) && Fits(encode(INFO)) && Fits(encode(A)) && Fits(encode(B))
    ensures Acceptable(Dotted(info), encode) && Acceptable(Plain(info), encode)
    ensures Content(Dotted(info)) == Content(Plain(info))
  {
    hide Normpath, Safe, Acceptable, Content;
    SpelledNames();
    assert |INFO| > |A| && A[4] != B[4];
    var dotted, plain := Dotted(info), Plain(info);
    ThreeAccepted(dotted[0], dotted[1], dotted[2], encode);
    ThreeAccepted(plain[0], plain[1], plain[2], encode);
    assert {File(B, []), File(INFO, info), File(A, [1])} == {File(INFO, info), File(A, [1]), File(B, [])};
  }

  lemma ThreeAccepted(a: Member, b: Member, c: Member, encode: string -> seq<Byte>)
    requires a.kind.Regular? && b.kind.Regular? && c.kind.Regular? && Safe(a.name) && Safe(b.name) && Safe(c.name)
    requires MemberFits(a, encode) && MemberFits(b, encode) && MemberFits(c, encode)
    requires Normpath(a.name) != Normpath(b.name) && Normpath(b.name) != Normpath(c.name)
               && Normpath(a.name) != Normpath(c.name)
    ensures Acceptable([a, b, c], encode)
    ensures Content([a, b, c]) ==
            {File(Normpath(a.name), a.payload), File(Normpath(b.name), b.payload), File(Normpath(c.name), c.payload)}
  {
    hide Normpath, Safe, MemberFits;
  }

  lemma FilesOfThree(a: Member, b: Member, c: Member)
    requires a.kind.Regular? && b.kind.Regular? && c.kind.Regular?
    ensures Files([a, b, c]) ==
            [File(Normpath(a.name), a.payload), File(Normpath(b.name), b.payload), File(Normpath(c.name), c.payload)]
  {
    hide Normpath;
    assert [a, b, c][..2] == [a, b] && [a, b][..1] == [a] && [a][..0] == [];
    assert Files([a, b]) == Files([a]) + [File(Normpath(b.name), b.payload)];
  }

  lemma DottedOrder(info: seq<Byte>, encode: string -> seq<Byte>)
    requires Acceptable(Dotted(info), encode)
    ensures !NormalOrder(Dotted(info))
  {
    hide Normpath, Visited, Acceptable, Safe, StringLe, Files;
    SpelledNames();
    var dotted := Dotted(info);
    InfoFirst();
    SortedMembersUnique(dotted, Visited(dotted), encode);
    FilesOfThree(dotted[0], dotted[1], dotted[2]);
    var files := Files(Visited(dotted));
    assert !StringLe(files[0].name, files[1].name);
  }

  lemma InfoFirst()
    ensures StringLe("./" + B, INFO) && StringLe("./" + B, A) && StringLe(INFO, A) && !StringLe(B, INFO)
  {
    assert INFO[1..][1..][1..][1..] == "PKG-INFO" && A[1..][1..][1..][1..] == "a" && B[1..][1..][1..][1..] == "b";
  }

  /** Two meaningful pieces make a name that is normal and safe, with or without a leading `./`. */
  lemma TwoPieces(a: string, x: string)
    requires Meaningful(a) && Meaningful(x) && a != ".." && x != ".." && a[0] != '.'
    ensures Normpath(a + "/" + x) == a + "/" + x && Safe(a + "/" + x)
    ensures Normpath("./" + (a + "/" + x)) == a + "/" + x && Safe("./" + (a + "/" + x))
  {
    hide Split, FoldParts, Join;
    var name := a + "/" + x;
    SplitPiece(x);
    SplitPrefix(a, x);
    SplitPrefix(".", name);
    assert "." + "/" + name == "./" + name && a[0] in a;
    assert Split(name) == [a, x] && Split("./" + name) == [".", a, x];
    FoldKeeps([a, x], []);
    assert [] + [a, x] == [a, x];
    DotSkipped([a, x]);
    JoinTwo(a, x);
    assert "" + name == name;
    SafeIff(name);
    SafeIff("./" + name);
  }

  lemma DotSkipped(parts: seq<string>)
    requires forall p | p in parts :: '/' !in p
    ensures FoldParts(["."] + parts, [], false) == FoldParts(parts, [], false)
  {
    assert (["."] + parts)[1..] == parts;
  }

  lemma JoinTwo(a: string, x: string)
    ensures Join([a, x]) == a + "/" + x
  {
    assert [a, x][1..] == [x];
  }

  lemma SpelledNames()
    ensures Normpath(INFO) == INFO && Normpath(A) == A && Normpath(B) == B && Normpath("./" + B) == B
    ensures Safe(INFO) && Safe(A) && Safe(B) && Safe("./" + B)
  {
    hide Normpath, Safe;
    TwoPieces("p-1", "PKG-INFO");
    TwoPieces("p-1", "a");
    TwoPieces("p-1", "b");
    assert INFO == "p-1" + "/" + "PKG-INFO" && A == "p-1" + "/" + "a" && B == "p-1" + "/" + "b";
  }
}
