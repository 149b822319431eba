/** Splitting the services to build over CI shards: contiguous runs of whole image/build families. */
module Shards {
  import opened Options
  import opened Ordering

  /** A Compose service; `build` is absent or empty for services that are only pulled. */
  datatype Service = Service(name: string, image: Option<string>, build: Option<string>)

  datatype Family = Family(image: Option<string>, build: string)

  datatype Selection = Selected(services: seq<Service>) | OutOfRange

  predicate Buildable(s: Service) { s.build.Some? }

  function FamilyOf(s: Service): Family
    requires Buildable(s)
  {
    Family(s.image, s.build.value)
  }

  predicate InFamily(s: Service, f: Family) { Buildable(s) && FamilyOf(s) == f }

  /** Families in the order of their first member. */
  function Families(services: seq<Service>): seq<Family> {
    if services == [] then []
    else
      var before, last := Families(services[..|services| - 1]), services[|services| - 1];
      if Buildable(last) && FamilyOf(last) !in before then before + [FamilyOf(last)] else before
  }

  function Members(services: seq<Service>, f: Family): seq<Service> {
    if services == [] then []
    else
      var before, last := Members(services[..|services| - 1], f), services[|services| - 1];
      if InFamily(last, f) then before + [last] else before
  }

  lemma {:induction false} FamiliesDistinct(services: seq<Service>)
    ensures Distinct(Families(services))
  {
    if services != [] { FamiliesDistinct(services[..|services| - 1]); }
  }

  lemma {:induction false} MembersAre(services: seq<Service>, f: Family, s: Service)
    requires s in Members(services, f)
    ensures s in services && InFamily(s, f)
  {
    var front, last := services[..|services| - 1], services[|services| - 1];
    assert services == front + [last];
    if s in Members(front, f) { MembersAre(front, f, s); }
  }

  function Groups(services: seq<Service>): (r: seq<seq<Service>>)
    ensures |r| == |Families(services)| && forall g | 0 <= g < |r| :: r[g] == Members(services, Families(services)[g])
  {
    var families := Families(services);
    seq(|families|, g requires 0 <= g < |families| => Members(services, families[g]))
  }

  function Flatten<T>(groups: seq<seq<T>>): seq<T> {
    if groups == [] then [] else groups[0] + Flatten(groups[1..])
  }

  /** The first family of shard `i` of `n` when there are `total`. */
  function Start(total: nat, i: nat, n: nat): nat
    requires n > 0
  {
    var size, extra := total / n, total % n;
    i * size + if i < extra then i else extra
  }

  lemma StartSteps(total: nat, i: nat, n: nat)
    requires n > 0
    ensures Start(total, 0, n) == 0 && Start(total, n, n) == total
    ensures Start(total, i + 1, n) == Start(total, i, n) + total / n + if i < total % n then 1 else 0
  {
    var size := total / n;
    assert (i + 1) * size == i * size + size;
    assert n * size + total % n == total;
  }

  lemma {:induction false} StartGrows(total: nat, i: nat, j: nat, n: nat)
    requires n > 0 && i <= j
    ensures Start(total, i, n) <= Start(total, j, n)
    decreases j
  {
    if i < j { StartGrows(total, i, j - 1, n); StartSteps(total, j - 1, n); }
  }

  lemma BoundsInside(total: nat, i: nat, n: nat)
    requires i < n
    ensures Start(total, i, n) <= Start(total, i + 1, n) <= total
  {
    StartSteps(total, i, n);
    StartGrows(total, i + 1, n, n);
  }

  /** The `i`-th of `n` contiguous pieces, flattened. */
  function Piece<T>(groups: seq<seq<T>>, i: nat, n: nat): seq<T>
    requires i < n
  {
    BoundsInside(|groups|, i, n);
    Flatten(groups[Start(|groups|, i, n)..Start(|groups|, i + 1, n)])
  }

  function Shard(services: seq<Service>, i: nat, n: nat): seq<Service>
    requires i < n
  {
    Piece(Groups(services), i, n)
  }

  // ------------------------------------------------------------------- the method

  lemma OneService(services: seq<Service>, k: nat, f: Family)
    requires k < |services|
    ensures var s, before := services[k], Families(services[..k]);
            && Families(services[..k + 1]) ==
               (if Buildable(s) && FamilyOf(s) !in before then before + [FamilyOf(s)] else before)
            && Members(services[..k + 1], f) ==
               if InFamily(s, f) then Members(services[..k], f) + [s] else Members(services[..k], f)
  {
    assert services[..k + 1][..k] == services[..k];
  }

  lemma {:induction false} NoMembers(services: seq<Service>, f: Family)
    requires f !in Families(services)
    ensures Members(services, f) == []
  {
    if services != [] {
      var front, last := services[..|services| - 1], services[|services| - 1];
      assert services == front + [last];
      NoMembers(front, f);
    }
  }

  /** The families as the source's dictionary holds them: their keys in insertion order, and their members. */
  method GroupFamilies(services: seq<Service>) returns (order: seq<Family>, families: map<Family, seq<Service>>)
    ensures order == Families(services) && families.Keys == Elements(order)
    ensures forall f | f in families :: families[f] == Members(services, f)
  {
    hide Grouped;
    order, families := [], map[];
    NothingGrouped(services);
    for k := 0 to |services|
      invariant Grouped(order, families, services[..k])
    {
      var s := services[k];
      GroupedStep(services, k, order, families);
      if Buildable(s) {
        var key := FamilyOf(s);
        if key !in families {
          order := order + [key];
          families := families[key := []];
        }
        families := families[key := families[key] + [s]];
      }
    }
    assert services[..|services|] == services;
    GroupedMeans(services, order, families);
  }

  ghost predicate Grouped(order: seq<Family>, families: map<Family, seq<Service>>, services: seq<Service>) {
    && order == Families(services) && families.Keys == Elements(order)
    && forall f | f in families :: families[f] == Members(services, f)
  }

  lemma NothingGrouped(services: seq<Service>)
    ensures Grouped([], map[], services[..0])
  {
  }

  lemma GroupedMeans(services: seq<Service>, order: seq<Family>, families: map<Family, seq<Service>>)
    requires Grouped(order, families, services)
    ensures order == Families(services) && families.Keys == Elements(order)
    ensures forall f | f in families :: families[f] == Members(services, f)
  {
  }

  lemma GroupedStep(services: seq<Service>, k: nat, order: seq<Family>, families: map<Family, seq<Service>>)
    requires k < |services| && Grouped(order, families, services[..k])
    ensures !Buildable(services[k]) ==> Grouped(order, families, services[..k + 1])
    ensures Buildable(services[k]) && FamilyOf(services[k]) in families ==>
              var key := FamilyOf(services[k]);
              Grouped(order, families[key := families[key] + [services[k]]], services[..k + 1])
    ensures Buildable(services[k]) && FamilyOf(services[k]) !in families ==>
              var key := FamilyOf(services[k]);
              Grouped(order + [key], families[key := []][key := [] + [services[k]]], services[..k + 1])
  {
    hide Families, Members;
    var s := services[k];
    forall f
      ensures Members(services[..k + 1], f) ==
              if InFamily(s, f) then Members(services[..k], f) + [s] else Members(services[..k], f)
    {
      OneService(services, k, f);
    }
    OneService(services, k, Family(None, ""));
    assert forall f :: f in order <==> f in Elements(order);
    if Buildable(s) && FamilyOf(s) !in families {
      NoMembers(services[..k], FamilyOf(s));
      assert Elements(order + [FamilyOf(s)]) == Elements(order) + {FamilyOf(s)};
    }
  }

  /** `select_buildable_services`. */
  method SelectBuildableServices(services: seq<Service>, index: int, count: int) returns (r: Selection)
    ensures r.Selected? <==> 0 <= index < count
    ensures r.Selected? ==> r.services == Shard(services, index, count)
  {
    hide Families, Members, Flatten, Start;
    if !(0 <= index < count) { return OutOfRange; }
    var order, families := GroupFamilies(services);
    var total := |order|;
    var size, extra := total / count, total % count;
    var start := index * size + if index < extra then index else extra;
    var stop := start + size + if index < extra then 1 else 0;
    ShardBounds(total, index, count);
    assert forall g | 0 <= g < total :: order[g] in Elements(order);
    var groups := seq(total, g requires 0 <= g < total => families[order[g]]);
    assert groups == Groups(services);
    return Selected(Flatten(groups[start..stop]));
  }

  lemma ShardBounds(total: nat, i: nat, n: nat)
    requires i < n
    ensures var start := i * (total / n) + if i < total % n then i else total % n;
            && Start(total, i, n) == start
            && Start(total, i + 1, n) == start + total / n + (if i < total % n then 1 else 0)
            && start <= Start(total, i + 1, n) <= total
  {
    StartSteps(total, i, n);
    BoundsInside(total, i, n);
  }

  // ------------------------------------------------------------------ what it means

  /** A family's members keep the order of the services. */
  lemma {:induction false} MembersJoin(a: seq<Service>, b: seq<Service>, f: Family)
    ensures Members(a + b, f) == Members(a, f) + Members(b, f)
    decreases b
  {
    if b == [] {
      assert a + b == a;
    } else {
      var front, last := b[..|b| - 1], b[|b| - 1];
      assert (a + b)[..|a + b| - 1] == a + front && (a + b)[|a + b| - 1] == last;
      MembersJoin(a, front, f);
    }
  }

  /** The families are the pairs of image and build that buildable services have. */
  lemma {:induction false} FamiliesAre(services: seq<Service>, f: Family)
    ensures f in Families(services) <==> exists s | s in services :: s.image == f.image && s.build == Some(f.build)
  {
    if services != [] {
      var front, last := services[..|services| - 1], services[|services| - 1];
      assert services == front + [last];
      FamiliesAre(front, f);
    }
  }

  /** The families come in the order of their first members: the one at `g` has a member before
      which every buildable service belongs to an earlier family. */
  lemma {:induction false} FirstSeenOrder(services: seq<Service>, g: nat)
    requires g < |Families(services)|
    ensures exists i | 0 <= i < |services| ::
              && InFamily(services[i], Families(services)[g])
              && forall j | 0 <= j < i && Buildable(services[j]) :: FamilyOf(services[j]) in Families(services)[..g]
  {
    var k := |services| - 1;
    var front, families := Families(services[..k]), Families(services);
    if g < |front| {
      FirstSeenOrder(services[..k], g);
      assert families[..g] == front[..g];
      var i :| 0 <= i < k && InFamily(services[..k][i], front[g])
               && forall j | 0 <= j < i && Buildable(services[..k][j]) :: FamilyOf(services[..k][j]) in front[..g];
      assert InFamily(services[i], families[g]);
    } else {
      assert families[..g] == front;
      forall j | 0 <= j < k && Buildable(services[j]) ensures FamilyOf(services[j]) in front {
        assert services[..k][j] == services[j];
        FamilyListed(services[..k], j);
      }
      assert InFamily(services[k], families[g]);
    }
  }

  lemma {:induction false} FamilyListed(services: seq<Service>, j: nat)
    requires j < |services| && Buildable(services[j])
    ensures FamilyOf(services[j]) in Families(services)
  {
    var k := |services| - 1;
    if j < k { FamilyListed(services[..k], j); }
  }

  lemma {:induction false} FlattenAppend<T>(a: seq<seq<T>>, b: seq<seq<T>>)
    ensures Flatten(a + b) == Flatten(a) + Flatten(b)
  {
    if a == [] { assert a + b == b; }
    else {
      FlattenAppend(a[1..], b);
      assert (a + b)[1..] == a[1..] + b && (a + b)[0] == a[0];
      assert a[0] + Flatten(a[1..]) + Flatten(b) == a[0] + (Flatten(a[1..]) + Flatten(b));
    }
  }

  lemma {:induction false} InFlatten<T>(groups: seq<seq<T>>, x: T)
    ensures x in Flatten(groups) <==> exists g | 0 <= g < |groups| :: x in groups[g]
  {
    if groups != [] {
      InFlatten(groups[1..], x);
      assert groups == [groups[0]] + groups[1..];
      assert x in groups[0] ==> x in groups[0] && 0 < |groups|;
      assert forall g | 0 <= g < |groups[1..]| :: groups[1..][g] == groups[g + 1];
    }
  }

  /** The first `i` pieces, one after the other. */
  function Pieces<T>(groups: seq<seq<T>>, i: nat, n: nat): seq<T>
    requires i <= n
  {
    if i == 0 then [] else Pieces(groups, i - 1, n) + Piece(groups, i - 1, n)
  }

  function Shards(services: seq<Service>, i: nat, n: nat): seq<Service>
    requires i <= n
  {
    Pieces(Groups(services), i, n)
  }

  lemma {:induction false} FirstPieces<T>(groups: seq<seq<T>>, i: nat, n: nat)
    requires 0 < n && i <= n
    ensures Start(|groups|, i, n) <= |groups|
    ensures Pieces(groups, i, n) == Flatten(groups[..Start(|groups|, i, n)])
    decreases i
  {
    hide Start;
    StartSteps(|groups|, 0, n);
    if i > 0 {
      FirstPieces(groups, i - 1, n);
      BoundsInside(|groups|, i - 1, n);
      var a, b := Start(|groups|, i - 1, n), Start(|groups|, i, n);
      FlattenAppend(groups[..a], groups[a..b]);
      assert groups[..a] + groups[a..b] == groups[..b];
    }
  }

  lemma {:induction false} GrowGroup(groups: seq<seq<Service>>, g: nat, s: Service)
    requires g < |groups|
    ensures multiset(Flatten(groups[g := groups[g] + [s]])) == multiset(Flatten(groups)) + multiset{s}
  {
    var grown := groups[g := groups[g] + [s]];
    if g > 0 { GrowGroup(groups[1..], g - 1, s); assert grown[1..] == groups[1..][g - 1 := groups[g] + [s]]; }
    else { assert grown[1..] == groups[1..]; }
  }

  function AllBuildable(services: seq<Service>): seq<Service> {
    if services == [] then []
    else
      var last := services[|services| - 1];
      AllBuildable(services[..|services| - 1]) + if Buildable(last) then [last] else []
  }

  lemma GroupsStep(services: seq<Service>, k: nat)
    requires k < |services|
    ensures var s, before, families := services[k], Groups(services[..k]), Families(services[..k]);
            var after := Groups(services[..k + 1]);
            && |families| == |before| <= |after|
            && (forall g | 0 <= g < |before| ::
                  after[g] == if InFamily(s, families[g]) then before[g] + [s] else before[g])
            && (if Buildable(s) && FamilyOf(s) !in families then |after| == |before| + 1 && after[|before|] == [s]
                else |after| == |before|)
  {
    hide Families, Members, Groups;
    var s, families := services[k], Families(services[..k]);
    forall f
      ensures Members(services[..k + 1], f) ==
              if InFamily(s, f) then Members(services[..k], f) + [s] else Members(services[..k], f)
    {
      OneService(services, k, f);
    }
    OneService(services, k, Family(None, ""));
    if Buildable(s) && FamilyOf(s) !in families {
      NoMembers(services[..k], FamilyOf(s));
      assert [] + [s] == [s];
    }
  }

  lemma GroupsGrow(services: seq<Service>, k: nat)
    requires k < |services|
    ensures var s, before := services[k], Groups(services[..k]);
            && (!Buildable(s) ==> Groups(services[..k + 1]) == before)
            && (Buildable(s) && FamilyOf(s) !in Families(services[..k]) ==> Groups(services[..k + 1]) == before + [[s]])
            && (Buildable(s) && FamilyOf(s) in Families(services[..k]) ==>
                  exists g | 0 <= g < |before| :: Groups(services[..k + 1]) == before[g := before[g] + [s]])
  {
    hide Families, Members, Groups;
    var s, families := services[k], Families(services[..k]);
    var before, after := Groups(services[..k]), Groups(services[..k + 1]);
    GroupsStep(services, k);
    FamiliesDistinct(services[..k]);
    if Buildable(s) && FamilyOf(s) in families {
      var g :| 0 <= g < |families| && families[g] == FamilyOf(s);
      assert forall h | 0 <= h < |families| && h != g :: families[h] != families[g];
      assert after == before[g := before[g] + [s]];
    } else if Buildable(s) {
      assert after == before + [[s]];
    } else {
      assert after == before;
    }
  }

  lemma {:induction false} GroupsHoldAll(services: seq<Service>)
    ensures multiset(Flatten(Groups(services))) == multiset(AllBuildable(services))
  {
    hide Groups, Families, Flatten, InFamily;
    if services == [] { EmptyGroups(); }
    else {
      var k := |services| - 1;
      assert services[..k + 1] == services;
      GroupsHoldAll(services[..k]);
      GroupsGrow(services, k);
      var s, before := services[k], Groups(services[..k]);
      if Buildable(s) {
        if FamilyOf(s) in Families(services[..k]) {
          var g :| 0 <= g < |before| && Groups(services[..k + 1]) == before[g := before[g] + [s]];
          GrowGroup(before, g, s);
        } else {
          FlattenAppend(before, [[s]]);
          FlattenOne([s]);
        }
      }
    }
  }

  lemma EmptyGroups()
    ensures Flatten(Groups([])) == []
  {
  }

  lemma FlattenOne<T>(group: seq<T>)
    ensures Flatten([group]) == group
  {
    assert [group][1..] == [] && group + [] == group;
  }

  /** The shards in order give the families in order, hence every buildable service exactly once. */
  lemma ShardsPartition(services: seq<Service>, n: nat)
    requires n > 0
    ensures Shards(services, n, n) == Flatten(Groups(services))
    ensures multiset(Shards(services, n, n)) == multiset(AllBuildable(services))
  {
    FirstPieces(Groups(services), n, n);
    StartSteps(|Groups(services)|, 0, n);
    assert Groups(services)[..|Groups(services)|] == Groups(services);
    GroupsHoldAll(services);
  }

  /** No family is split: two services of one family are never in different shards. */
  lemma FamiliesStayTogether(services: seq<Service>, n: nat, i: nat, j: nat, a: Service, b: Service)
    requires i < n && j < n && a in Shard(services, i, n) && b in Shard(services, j, n)
    ensures Buildable(a) && Buildable(b)
    ensures FamilyOf(a) == FamilyOf(b) ==> i == j
  {
    hide Start, Flatten, Groups, Members, Families;
    var g := FamilyInShard(services, n, i, a);
    var h := FamilyInShard(services, n, j, b);
    var total := |Groups(services)|;
    FamiliesDistinct(services);
    if FamilyOf(a) == FamilyOf(b) {
      assert g == h;
      if i < j { StartGrows(total, i + 1, j, n); }
      if j < i { StartGrows(total, j + 1, i, n); }
    }
  }

  lemma FamilyInShard(services: seq<Service>, n: nat, i: nat, a: Service) returns (g: nat)
    requires i < n && a in Shard(services, i, n)
    ensures Start(|Groups(services)|, i, n) <= g < Start(|Groups(services)|, i + 1, n) <= |Groups(services)|
    ensures InFamily(a, Families(services)[g])
  {
    hide Start, Flatten, Groups, Members, Families;
    var groups := Groups(services);
    BoundsInside(|groups|, i, n);
    var lo, hi := Start(|groups|, i, n), Start(|groups|, i + 1, n);
    InFlatten(groups[lo..hi], a);
    var k :| 0 <= k < |groups[lo..hi]| && a in groups[lo..hi][k];
    g := lo + k;
    assert groups[lo..hi][k] == groups[g];
    MembersAre(services, Families(services)[g], a);
  }

  /** Shard sizes, in families, differ by at most one, and the larger shards come first. */
  lemma ShardsBalanced(total: nat, i: nat, j: nat, n: nat)
    requires i <= j < n
    ensures var a := Start(total, i + 1, n) - Start(total, i, n);
            var b := Start(total, j + 1, n) - Start(total, j, n);
            b <= a <= b + 1
  {
    StartSteps(total, i, n);
    StartSteps(total, j, n);
  }
}
