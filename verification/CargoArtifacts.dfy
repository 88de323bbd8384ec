/**
 The stream of test binaries out of a `cargo` build (`cargo-maelstrom/src/cargo.rs`): an
 integration test is held back until its package's binaries are built, and nothing that is
 accepted is lost or yielded twice.
 */
module CargoArtifacts {
  import opened Wrappers

  type PackageId = string

  datatype Artifact = Artifact(
    packageId: PackageId, targetName: string, kinds: set<string>, profileTest: bool, executable: Option<string>,
    serial: nat)

  datatype PackageToBuild = PackageToBuild(unbuiltNonTestBinaries: set<string>, builtTests: seq<Artifact>)

  datatype StreamItem = CompilerArtifact(artifact: Artifact) | OtherMessage | BrokenMessage

  datatype BuildError = StreamError | UnexpectedBinary(name: string, packageId: PackageId)

  // ----- What is accepted

  predicate IsIntegrationTest(a: Artifact) { "test" in a.kinds }

  predicate IsPlainBinary(a: Artifact) { "bin" in a.kinds && !a.profileTest }

  /** A test to be yielded sooner or later: an integration test, or an executable built for testing. */
  predicate IsAccepted(ids: set<PackageId>, a: Artifact) {
    && "proc-macro" !in a.kinds
    && a.packageId in ids
    && (IsIntegrationTest(a) || (!IsPlainBinary(a) && a.executable.Some? && a.profileTest))
  }

  /** The accepted tests among the messages of a build, in order. */
  function Accepted(ids: set<PackageId>, items: seq<StreamItem>): seq<Artifact> {
    if items == [] then []
    else
      Accepted(ids, items[..|items| - 1]) +
      match items[|items| - 1]
      case CompilerArtifact(a) => if IsAccepted(ids, a) then [a] else []
      case _ => []
  }

  /** Said outright: an integration test, or anything executable that is built for testing; but no macro crate. */
  predicate IsTest(ids: set<PackageId>, a: Artifact) {
    a.packageId in ids && "proc-macro" !in a.kinds && ("test" in a.kinds || (a.profileTest && a.executable.Some?))
  }

  /** How often a test is to be yielded: as often as the build reports it. */
  function Reported(ids: set<PackageId>, items: seq<StreamItem>, a: Artifact): nat {
    if IsTest(ids, a) then multiset(items)[CompilerArtifact(a)] else 0
  }

  lemma {:induction false} AcceptedExactly(ids: set<PackageId>, items: seq<StreamItem>, a: Artifact)
    ensures Count(Accepted(ids, items), a) == Reported(ids, items, a)
  {
    hide IsAccepted, IsTest, Reported, Count;
    if items == [] {
      NothingReported(ids, a);
    } else {
      var front, last := items[..|items| - 1], items[|items| - 1];
      AcceptedExactly(ids, front, a);
      assert items == front + [last];
      ReportedOneMore(ids, front, last, a);
      if last.CompilerArtifact? && IsAccepted(ids, last.artifact) {
        CountOneMore(Accepted(ids, front), last.artifact, a);
      } else {
        assert Accepted(ids, front) + [] == Accepted(ids, front);
      }
    }
  }

  lemma NothingReported(ids: set<PackageId>, a: Artifact)
    ensures Count([], a) == Reported(ids, [], a)
  {
  }

  lemma ReportedOneMore(ids: set<PackageId>, items: seq<StreamItem>, item: StreamItem, a: Artifact)
    ensures Reported(ids, items + [item], a)
         == Reported(ids, items, a) + if item == CompilerArtifact(a) && IsAccepted(ids, a) then 1 else 0
  {
    assert multiset(items + [item]) == multiset(items) + multiset([item]);
  }

  lemma CountOneMore(s: seq<Artifact>, x: Artifact, a: Artifact)
    ensures Count(s + [x], a) == Count(s, a) + if x == a then 1 else 0
  {
    assert multiset(s + [x]) == multiset(s) + multiset([x]);
  }

  /** The message says that the package's binary `name` is built, not for testing. */
  predicate BuildsBinary(item: StreamItem, id: PackageId, name: string) {
    && item.CompilerArtifact? && item.artifact.packageId == id && item.artifact.targetName == name
    && "bin" in item.artifact.kinds && !item.artifact.profileTest
    && "proc-macro" !in item.artifact.kinds && "test" !in item.artifact.kinds
  }

  predicate WasBuilt(items: seq<StreamItem>, id: PackageId, name: string) {
    exists k :: 0 <= k < |items| && BuildsBinary(items[k], id, name)
  }

  // ----- Where the accepted tests are

  type Packages = map<PackageId, PackageToBuild>

  function Count(s: seq<Artifact>, a: Artifact): nat { multiset(s)[a] }

  lemma CountSum(s: seq<Artifact>, t: seq<Artifact>)
    ensures forall a :: Count(s + t, a) == Count(s, a) + Count(t, a)
  {
  }

  lemma CountAbsent(s: seq<Artifact>, a: Artifact)
    ensures a !in s <==> Count(s, a) == 0
  {
  }

  /** How often a test is held back. */
  function Held(packages: Packages, a: Artifact): nat {
    if a.packageId in packages then Count(packages[a.packageId].builtTests, a) else 0
  }

  /** Every accepted test is in exactly one place: yielded, ready or held back by its package. */
  ghost predicate Conserved(packages: Packages, ready: seq<Artifact>, emitted: seq<Artifact>, accepted: seq<Artifact>) {
    forall a :: Count(accepted, a) == Count(emitted, a) + Count(ready, a) + Held(packages, a)
  }

  /** Packages hold back integration tests of their own. */
  ghost predicate OwnTests(packages: Packages) {
    forall id, a :: id in packages && a in packages[id].builtTests ==> a.packageId == id && IsIntegrationTest(a)
  }

  /** Packages hold tests back only while some binary is not built; `ids` are exempt. */
  ghost predicate Waiting(packages: Packages, ids: set<PackageId>) {
    forall id :: id in packages.Keys - ids && packages[id].builtTests != [] ==>
                   packages[id].unbuiltNonTestBinaries != {}
  }

  /** Integration tests are let through only once their package is built or the build is over. */
  ghost predicate LetThrough(packages: Packages, buildDone: bool, tests: seq<Artifact>) {
    forall a :: a in tests && IsIntegrationTest(a) ==>
                  buildDone || (a.packageId in packages && packages[a.packageId].unbuiltNonTestBinaries == {})
  }

  /** A plain binary of one of the packages; it should be among the binaries waited for. */
  predicate IsExpected(a: Artifact, packages: Packages) {
    "proc-macro" !in a.kinds && a.packageId in packages && !IsIntegrationTest(a) && IsPlainBinary(a)
  }

  /** What an artifact does to its package before tests are let through: a test is held, a binary is built. */
  function Noted(pkg: PackageToBuild, a: Artifact): PackageToBuild {
    if IsIntegrationTest(a) then pkg.(builtTests := pkg.builtTests + [a])
    else if IsPlainBinary(a) then pkg.(unbuiltNonTestBinaries := pkg.unbuiltNonTestBinaries - {a.targetName})
    else pkg
  }

  /** The binaries that packages wait for are those they have, less those that were built. */
  ghost predicate WaitFor(packages: Packages, binaries: map<PackageId, set<string>>, items: seq<StreamItem>) {
    && packages.Keys == binaries.Keys
    && forall id, name :: id in packages ==>
         (name in packages[id].unbuiltNonTestBinaries <==> name in binaries[id] && !WasBuilt(items, id, name))
  }

  lemma WaitForOneMore(packages: Packages, binaries: map<PackageId, set<string>>, items: seq<StreamItem>, k: nat)
    requires k < |items| && WaitFor(packages, binaries, items[..k])
    ensures items[k].CompilerArtifact? ==> WaitFor(AfterArtifact(packages, items[k].artifact), binaries, items[..k + 1])
    ensures items[k].CompilerArtifact? && IsExpected(items[k].artifact, packages)
            && items[k].artifact.targetName !in packages[items[k].artifact.packageId].unbuiltNonTestBinaries ==>
              WaitFor(packages, binaries, items[..k + 1])
    ensures !items[k].CompilerArtifact? ==> WaitFor(packages, binaries, items[..k + 1])
  {
    forall id, name ensures WasBuilt(items[..k + 1], id, name)
                       <==> WasBuilt(items[..k], id, name) || BuildsBinary(items[k], id, name) {
      assert items[..k + 1][k] == items[k];
      assert forall i :: 0 <= i < k ==> items[..k + 1][i] == items[..k][i];
    }
  }

  lemma FiledAs(packages: Packages, a: Artifact)
    ensures "proc-macro" in a.kinds || a.packageId !in packages ==>
              AfterArtifact(packages, a) == packages && LetThroughBy(packages, a) == []
    ensures "proc-macro" !in a.kinds && a.packageId in packages ==>
              var pkg := Noted(packages[a.packageId], a);
              var own := if !IsIntegrationTest(a) && !IsPlainBinary(a) && a.executable.Some? && a.profileTest then [a]
                         else [];
              if pkg.unbuiltNonTestBinaries == {} then
                && AfterArtifact(packages, a) == packages[a.packageId := pkg.(builtTests := [])]
                && LetThroughBy(packages, a) == own + pkg.builtTests
              else
                && AfterArtifact(packages, a) == packages[a.packageId := pkg]
                && LetThroughBy(packages, a) == own
  {
  }

  lemma WaitingAfter(packages: Packages, a: Artifact)
    requires Waiting(packages, {})
    ensures Waiting(AfterArtifact(packages, a), {})
  {
  }

  lemma WaitsAlike(packages: Packages, binaries: map<PackageId, set<string>>, items: seq<StreamItem>, id: PackageId)
    requires WaitFor(packages, binaries, items) && id in packages
    ensures WaitFor(packages[id := packages[id].(builtTests := [])], binaries, items)
  {
  }

  lemma NothingBuiltYet(packages: Packages, binaries: map<PackageId, set<string>>, items: seq<StreamItem>)
    requires packages == map id | id in binaries :: PackageToBuild(binaries[id], [])
    ensures WaitFor(packages, binaries, items[..0])
  {
  }

  /** The packages after an artifact: once all binaries are built, nothing is held back. */
  function AfterArtifact(packages: Packages, a: Artifact): Packages {
    if "proc-macro" in a.kinds || a.packageId !in packages then packages
    else
      var pkg := Noted(packages[a.packageId], a);
      packages[a.packageId := if pkg.unbuiltNonTestBinaries == {} then pkg.(builtTests := []) else pkg]
  }

  /** The tests an artifact lets through: itself if a unit test, and then those held back if nothing is unbuilt. */
  function LetThroughBy(packages: Packages, a: Artifact): seq<Artifact> {
    if "proc-macro" in a.kinds || a.packageId !in packages then []
    else
      var pkg := Noted(packages[a.packageId], a);
      (if !IsIntegrationTest(a) && IsAccepted(packages.Keys, a) then [a] else [])
      + if pkg.unbuiltNonTestBinaries == {} then pkg.builtTests else []
  }

  /** The reads left before the end of the build is seen. */
  function Left(stream: seq<StreamItem>, buildDone: bool): nat {
    if buildDone then 0 else |stream| + 1
  }

  lemma {:induction false} AcceptedOneMore(ids: set<PackageId>, items: seq<StreamItem>, k: nat)
    requires k < |items|
    ensures
      var more := if items[k].CompilerArtifact? && IsAccepted(ids, items[k].artifact) then [items[k].artifact] else [];
      && Accepted(ids, items[..k + 1]) == Accepted(ids, items[..k]) + more
      && (more == [] ==> Accepted(ids, items[..k + 1]) == Accepted(ids, items[..k]))
  {
    assert items[..k + 1][..k] == items[..k];
  }

  lemma HeldAfter(packages: Packages, id: PackageId, pkg: PackageToBuild)
    requires id in packages
    ensures forall a: Artifact :: Held(packages[id := pkg], a)
                        == if a.packageId == id then Count(pkg.builtTests, a) else Held(packages, a)
    ensures forall a: Artifact :: a.packageId == id ==> Held(packages, a) == Count(packages[id].builtTests, a)
  {
  }

  lemma DoneLetsThrough(packages: Packages, ready: seq<Artifact>, emitted: seq<Artifact>, accepted: seq<Artifact>)
    requires Sound(packages, ready, false, emitted, accepted)
    ensures Sound(packages, ready, true, emitted, accepted)
  {
  }

  lemma YieldedWasLetThrough(packages: Packages, buildDone: bool, emitted: seq<Artifact>)
    requires LetThrough(packages, buildDone, emitted) && emitted != []
    ensures
      var a := emitted[|emitted| - 1];
      IsIntegrationTest(a) ==>
        buildDone || (a.packageId in packages && packages[a.packageId].unbuiltNonTestBinaries == {})
  {
  }

  lemma AllYielded(packages: Packages, emitted: seq<Artifact>, accepted: seq<Artifact>)
    requires Conserved(packages, [], emitted, accepted)
    requires forall id :: id in packages ==> packages[id].builtTests == []
    ensures multiset(emitted) == multiset(accepted)
  {
    forall a: Artifact ensures multiset(accepted)[a] == multiset(emitted)[a] {
      assert Count(accepted, a) == Count(emitted, a) + Count([], a) + Held(packages, a);
    }
  }

  /** Nothing is lost or doubled, and nothing is let through too early. */
  ghost predicate Sound(packages: Packages, ready: seq<Artifact>, buildDone: bool, emitted: seq<Artifact>,
                        accepted: seq<Artifact>) {
    && Conserved(packages, ready, emitted, accepted)
    && OwnTests(packages)
    && LetThrough(packages, buildDone, ready) && LetThrough(packages, buildDone, emitted)
  }

  lemma HoldOne(packages: Packages, ready: seq<Artifact>, buildDone: bool, emitted: seq<Artifact>,
                accepted: seq<Artifact>, a: Artifact)
    requires Sound(packages, ready, buildDone, emitted, accepted)
    requires a.packageId in packages && IsIntegrationTest(a)
    ensures
      var pkg := packages[a.packageId];
      Sound(packages[a.packageId := pkg.(builtTests := pkg.builtTests + [a])], ready, buildDone, emitted,
            accepted + [a])
  {
    var pkg := packages[a.packageId].(builtTests := packages[a.packageId].builtTests + [a]);
    HeldAfter(packages, a.packageId, pkg);
    CountSum(accepted, [a]);
    CountSum(packages[a.packageId].builtTests, [a]);
    hide Held, Count;
    forall b: Artifact | b.packageId != a.packageId ensures Count([a], b) == 0 {
      CountAbsent([a], b);
    }
  }

  lemma BuildOne(packages: Packages, ready: seq<Artifact>, buildDone: bool, emitted: seq<Artifact>,
                 accepted: seq<Artifact>,
                 id: PackageId, name: string)
    requires Sound(packages, ready, buildDone, emitted, accepted) && id in packages
    ensures
      var pkg := packages[id];
      Sound(packages[id := pkg.(unbuiltNonTestBinaries := pkg.unbuiltNonTestBinaries - {name})], ready, buildDone,
            emitted, accepted)
  {
    var pkg := packages[id].(unbuiltNonTestBinaries := packages[id].unbuiltNonTestBinaries - {name});
    HeldAfter(packages, id, pkg);
    hide Held, Count;
  }

  lemma ReadyOne(packages: Packages, ready: seq<Artifact>, buildDone: bool, emitted: seq<Artifact>,
                 accepted: seq<Artifact>, a: Artifact)
    requires Sound(packages, ready, buildDone, emitted, accepted) && !IsIntegrationTest(a)
    ensures Sound(packages, ready + [a], buildDone, emitted, accepted + [a])
  {
    CountSum(accepted, [a]);
    CountSum(ready, [a]);
    hide Held, Count;
  }

  lemma Release(packages: Packages, ready: seq<Artifact>, buildDone: bool, emitted: seq<Artifact>,
                accepted: seq<Artifact>, id: PackageId)
    requires Sound(packages, ready, buildDone, emitted, accepted)
    requires id in packages && (buildDone || packages[id].unbuiltNonTestBinaries == {})
    ensures
      var pkg := packages[id];
      Sound(packages[id := pkg.(builtTests := [])], ready + pkg.builtTests, buildDone, emitted, accepted)
  {
    var pkg := packages[id].(builtTests := []);
    HeldAfter(packages, id, pkg);
    CountSum(ready, packages[id].builtTests);
    hide Held, Count;
    forall a: Artifact ensures Count([], a) == 0 {
      CountAbsent([], a);
    }
    forall a: Artifact | a.packageId != id ensures Count(packages[id].builtTests, a) == 0 {
      CountAbsent(packages[id].builtTests, a);
    }
  }

  lemma PopOne(packages: Packages, ready: seq<Artifact>, buildDone: bool, emitted: seq<Artifact>,
               accepted: seq<Artifact>)
    requires Sound(packages, ready, buildDone, emitted, accepted) && ready != []
    ensures Sound(packages, ready[..|ready| - 1], buildDone, emitted + [ready[|ready| - 1]], accepted)
  {
    var last := ready[|ready| - 1];
    assert ready == ready[..|ready| - 1] + [last];
    CountSum(ready[..|ready| - 1], [last]);
    CountSum(emitted, [last]);
    hide Held, Count;
  }

  class TestArtifactStream {
    var packages: Packages
    var ready: seq<Artifact>
    var stream: seq<StreamItem>
    var buildDone: bool
    ghost const whole: seq<StreamItem>
    ghost const binaries: map<PackageId, set<string>>
    ghost var consumed: nat
    ghost var emitted: seq<Artifact>

    /** The tests accepted from the messages read so far are sound. */
    ghost predicate ValidTests()
      reads this
    {
      && consumed <= |whole|
      && Sound(packages, ready, buildDone, emitted, Accepted(packages.Keys, whole[..consumed]))
      && WaitFor(packages, binaries, whole[..consumed])
      && Waiting(packages, {})
      && (buildDone ==> forall id :: id in packages ==> packages[id].builtTests == [])
    }

    ghost predicate Valid()
      reads this
    {
      && ValidTests()
      && stream == whole[consumed..]
      && (buildDone ==> stream == [])
    }

    constructor (binaries: map<PackageId, set<string>>, stream: seq<StreamItem>)
      ensures Valid() && this.stream == whole == stream && emitted == [] && ready == [] && !buildDone
      ensures packages.Keys == binaries.Keys && this.binaries == binaries
    {
      NothingBuiltYet(map id | id in binaries :: PackageToBuild(binaries[id], []), binaries, stream);
      this.binaries := binaries;
      packages := map id | id in binaries :: PackageToBuild(binaries[id], []);
      ready, this.stream, buildDone := [], stream, false;
      whole, consumed, emitted := stream, 0, [];
    }

    /** Files one built artifact; fails only on a binary that was not waited for. */
    method ReceiveBuiltArtifact(a: Artifact) returns (r: Result<(), BuildError>)
      requires ValidTests() && !buildDone
      requires consumed < |whole| && whole[consumed] == CompilerArtifact(a)
      modifies `packages, `ready, `consumed
      ensures ValidTests() && packages.Keys == old(packages.Keys) && consumed == old(consumed) + 1
      ensures r.Err? <==> IsExpected(a, old(packages))
                          && a.targetName !in old(packages)[a.packageId].unbuiltNonTestBinaries
      ensures r.Err? ==> r.error == UnexpectedBinary(a.targetName, a.packageId) && ready == old(ready)
      ensures packages == if r.Err? then old(packages) else AfterArtifact(old(packages), a)
      ensures r.Ok? ==> ready == old(ready) + LetThroughBy(old(packages), a)
    {
      hide Sound, Accepted, WaitFor, Waiting, AfterArtifact, LetThroughBy;
      FiledAs(packages, a);
      WaitForOneMore(packages, binaries, whole, consumed);
      WaitingAfter(packages, a);
      ghost var accepted := Accepted(packages.Keys, whole[..consumed]);
      AcceptedOneMore(packages.Keys, whole, consumed);
      consumed := consumed + 1;
      if "proc-macro" in a.kinds || a.packageId !in packages {
        return Ok(());
      }
      var pkg := packages[a.packageId];
      if IsIntegrationTest(a) {
        HoldOne(packages, ready, buildDone, emitted, accepted, a);
        pkg := pkg.(builtTests := pkg.builtTests + [a]);
      } else if IsPlainBinary(a) {
        if a.targetName !in pkg.unbuiltNonTestBinaries {
          return Err(UnexpectedBinary(a.targetName, a.packageId));
        }
        BuildOne(packages, ready, buildDone, emitted, accepted, a.packageId, a.targetName);
        pkg := pkg.(unbuiltNonTestBinaries := pkg.unbuiltNonTestBinaries - {a.targetName});
      } else if a.executable.Some? && a.profileTest {
        ReadyOne(packages, ready, buildDone, emitted, accepted, a);
        ready := ready + [a];
        assert packages[a.packageId := pkg] == packages;
      } else {
        assert packages[a.packageId := pkg] == packages;
      }
      assert pkg == Noted(old(packages)[a.packageId], a);
      packages := packages[a.packageId := pkg];
      assert packages.Keys == old(packages.Keys);
      assert Sound(packages, ready, buildDone, emitted, Accepted(packages.Keys, whole[..consumed]));
      if pkg.unbuiltNonTestBinaries == {} {
        Release(packages, ready, buildDone, emitted, Accepted(packages.Keys, whole[..consumed]), a.packageId);
        ready := ready + pkg.builtTests;
        packages := packages[a.packageId := pkg.(builtTests := [])];
        assert packages.Keys == old(packages.Keys);
      }
      assert packages == AfterArtifact(old(packages), a);
      r := Ok(());
    }

    /** The end of the build lets everything through that is still held back. */
    method BuildCompleted()
      requires Valid() && !buildDone && stream == []
      modifies `packages, `ready, `buildDone
      ensures Valid() && buildDone && packages.Keys == old(packages.Keys) && old(ready) <= ready
    {
      hide Sound, Accepted, WaitFor;
      DoneLetsThrough(packages, ready, emitted, Accepted(packages.Keys, whole[..consumed]));
      buildDone := true;
      var ids := packages.Keys;
      while ids != {}
        invariant ids <= packages.Keys == old(packages.Keys)
        invariant Sound(packages, ready, buildDone, emitted, Accepted(packages.Keys, whole[..consumed]))
        invariant Waiting(packages, {}) && buildDone && WaitFor(packages, binaries, whole[..consumed])
        invariant forall id :: id in packages && id !in ids ==> packages[id].builtTests == []
        invariant old(ready) <= ready
        decreases ids
      {
        var id :| id in ids;
        var pkg := packages[id];
        if pkg.builtTests != [] {
          assert pkg.unbuiltNonTestBinaries != {};
          Release(packages, ready, buildDone, emitted, Accepted(packages.Keys, whole[..consumed]), id);
          ready := ready + pkg.builtTests;
          WaitsAlike(packages, binaries, whole[..consumed], id);
          packages := packages[id := pkg.(builtTests := [])];
          assert packages.Keys == old(packages.Keys);
        }
        ids := ids - {id};
      }
    }

    method ReadNextArtifact() returns (r: Result<(), BuildError>)
      requires Valid() && !buildDone
      modifies `packages, `ready, `stream, `buildDone, `consumed
      ensures Valid() && packages.Keys == old(packages.Keys) && old(ready) <= ready
      ensures if old(stream) == [] then buildDone && stream == [] && r.Ok? else !buildDone && |stream| < |old(stream)|
    {
      hide Sound, Accepted, Waiting;
      if stream == [] {
        BuildCompleted();
        return Ok(());
      }
      var item := stream[0];
      stream := stream[1..];
      match item {
        case CompilerArtifact(artifact) =>
          r := ReceiveBuiltArtifact(artifact);
        case _ =>
          AcceptedOneMore(packages.Keys, whole, consumed);
          WaitForOneMore(packages, binaries, whole, consumed);
          consumed := consumed + 1;
          r := if item.BrokenMessage? then Err(StreamError) else Ok(());
      }
    }

    method PopReady() returns (a: Artifact)
      requires Valid() && ready != []
      modifies `ready, `emitted
      ensures Valid() && old(ready) == ready + [a] && emitted == old(emitted) + [a]
    {
      hide Sound, Accepted;
      PopOne(packages, ready, buildDone, emitted, Accepted(packages.Keys, whole[..consumed]));
      a := ready[|ready| - 1];
      assert ready == ready[..|ready| - 1] + [a];
      ready := ready[..|ready| - 1];
      emitted := emitted + [a];
    }

    /** The next test, or an error; nothing once the build is over and everything accepted was yielded. */
    method Next() returns (r: Option<Result<Artifact, BuildError>>)
      requires Valid()
      modifies this
      ensures Valid() && packages.Keys == old(packages.Keys)
      ensures r.None? ==> buildDone && stream == [] && ready == [] && emitted == old(emitted)
      ensures r.None? ==> multiset(emitted) == multiset(Accepted(packages.Keys, whole))
      ensures r.Some? && r.value.Ok? ==> emitted == old(emitted) + [r.value.value]
      ensures r.Some? && r.value.Ok? && "test" in r.value.value.kinds && !buildDone ==>
                var id := r.value.value.packageId;
                id in binaries && forall name :: name in binaries[id] ==> WasBuilt(whole[..consumed], id, name)
      ensures r.Some? && r.value.Err? ==> emitted == old(emitted)
      ensures r.Some? ==> Left(stream, buildDone) < Left(old(stream), old(buildDone))
                          || (stream == old(stream) && buildDone == old(buildDone) && |ready| < |old(ready)|)
    {
      hide Conserved, OwnTests, LetThrough, Accepted;
      if ready != [] {
        var a := PopReady();
        YieldedWasLetThrough(packages, buildDone, emitted);
        return Some(Ok(a));
      }
      while !buildDone
        invariant Valid() && packages.Keys == old(packages.Keys)
        invariant ready == [] && emitted == old(emitted)
        decreases Left(stream, buildDone)
      {
        var read := ReadNextArtifact();
        if read.Err? {
          return Some(Err(read.error));
        }
        if ready != [] {
          var a := PopReady();
          YieldedWasLetThrough(packages, buildDone, emitted);
          return Some(Ok(a));
        }
      }
      assert whole[..consumed] == whole;
      AllYielded(packages, emitted, Accepted(packages.Keys, whole));
      r := None;
    }
  }

  /** Over a whole build, whatever goes wrong on the way, each accepted test is yielded exactly once. */
  method Drain(binaries: map<PackageId, set<string>>, stream: seq<StreamItem>)
    returns (tests: seq<Artifact>, errors: seq<BuildError>)
    ensures forall a: Artifact :: multiset(tests)[a] == Reported(binaries.Keys, stream, a)
  {
    hide Accepted, TestArtifactStream.Valid, Reported;
    var artifacts := new TestArtifactStream(binaries, stream);
    tests, errors := [], [];
    var next := artifacts.Next();
    while next.Some?
      invariant fresh(artifacts) && artifacts.Valid() && artifacts.whole == stream
      invariant artifacts.packages.Keys == binaries.Keys
      invariant artifacts.emitted == tests + if next.Some? && next.value.Ok? then [next.value.value] else []
      invariant next.None? ==> multiset(artifacts.emitted) == multiset(Accepted(binaries.Keys, stream))
      decreases next.Some?, Left(artifacts.stream, artifacts.buildDone), |artifacts.ready|
    {
      match next.value {
        case Ok(test) => tests := tests + [test];
        case Err(error) => errors := errors + [error];
      }
      next := artifacts.Next();
    }
    forall a: Artifact ensures multiset(tests)[a] == Reported(binaries.Keys, stream, a) {
      AcceptedExactly(binaries.Keys, stream, a);
    }
  }
}
