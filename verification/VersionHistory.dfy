/**
 The versions of a package over a history of uploads.  Each upload builds packages against the version cache
 that the upload before has left, and replaces it.
 */
module VersionHistory {
  import opened Wrappers
  import opened Text
  import opened Versions

  datatype Info = Info(hash: string, version: string)

  type Cache = map<string, Info>

  predicate AlphaNumeric(c: char) {
    IsDigit(c) || 'a' <= c <= 'z' || 'A' <= c <= 'Z'
  }

  predicate HashOk(hash: string) {
    |hash| == 64 && forall i | 0 <= i < |hash| :: AlphaNumeric(hash[i])
  }

  // Every version in the cache is one that the tools have written.
  ghost predicate ValidCache(cache: Cache) {
    forall name | name in cache :: Dotted(cache[name].version)
  }

  // version-compute.py, for one package; None is a failed assertion.
  method ComputeVersion(production: string, cache: Cache, name: string, hash: string) returns (r: Option<string>)
    requires ValidCache(cache)
    ensures r == Computed(production, cache, name, hash)
  {
    if !ProductionOk(production) || !HashOk(hash) { return None; }
    ProductionIsDotted(production);
    var version := production;
    if name in cache {
      version := cache[name].version;
      if cache[name].hash != hash {
        var next := IncrementVersion(version);
        if next.None? { return None; }
        version := next.value;
        IncrementIsLater(cache[name].version);
      }
      version := LatestVersion(version, production);
    }
    r := Some(version);
  }

  function Computed(production: string, cache: Cache, name: string, hash: string): Option<string>
    requires ValidCache(cache)
  {
    if !ProductionOk(production) || !HashOk(hash) then None
    else if name !in cache then Some(production)
    else
      ProductionIsDotted(production);
      var past := cache[name].version;
      if cache[name].hash == hash then Some(LatestVersion(past, production))
      else
        match Incremented(past)
        case None => None
        case Some(next) =>
          IncrementIsLater(past);
          Some(LatestVersion(next, production))
  }

  // ---- One step ----

  predicate NotEarlier(a: string, b: string)
    requires Dotted(a) && Dotted(b)
  {
    NumbersOf(a) == NumbersOf(b) || IsLater(NumbersOf(a), NumbersOf(b))
  }

  lemma {:induction false} LastIncremented(a: seq<nat>, n: nat)
    requires a != [] && n > a[|a| - 1]
    ensures IsLater(a[|a| - 1 := n], a)
  {
    if |a| > 1 {
      LastIncremented(a[1..], n);
      assert a[|a| - 1 := n][1..] == a[1..][|a| - 2 := n];
    }
  }

  /** An incremented version is one again, and is later. */
  lemma IncrementIsLater(x: string)
    requires Dotted(x)
    ensures Incremented(x).Some? ==>
              Dotted(Incremented(x).value) && IsLater(NumbersOf(Incremented(x).value), NumbersOf(x))
  {
    if Incremented(x).Some? {
      var numbers := NumbersOf(x);
      IncrementAddsOne(x);
      LastIncremented(numbers, numbers[|numbers| - 1] + 1);
    }
  }

  lemma LatestIsNotEarlier(a: string, b: string)
    requires Dotted(a) && Dotted(b)
    ensures Dotted(LatestVersion(a, b))
    ensures NotEarlier(LatestVersion(a, b), a) && NotEarlier(LatestVersion(a, b), b)
  {
    StrictTotalOrder(NumbersOf(a), NumbersOf(b));
  }

  lemma NotEarlierThan(a: string, b: string, c: string)
    requires Dotted(a) && Dotted(b) && Dotted(c) && NotEarlier(a, b) && NotEarlier(b, c)
    ensures NotEarlier(a, c)
    ensures IsLater(NumbersOf(a), NumbersOf(b)) || IsLater(NumbersOf(b), NumbersOf(c)) ==>
              IsLater(NumbersOf(a), NumbersOf(c))
  {
    if IsLater(NumbersOf(a), NumbersOf(b)) && IsLater(NumbersOf(b), NumbersOf(c)) {
      LaterIsTransitive(NumbersOf(a), NumbersOf(b), NumbersOf(c));
    }
  }

  /** The version chosen is never earlier than production or the last upload, and later if the hash is new. */
  lemma ComputedIsNotEarlier(production: string, cache: Cache, name: string, hash: string)
    requires ValidCache(cache) && Computed(production, cache, name, hash).Some?
    ensures var version := Computed(production, cache, name, hash).value;
            && Dotted(version) && Dotted(production) && NotEarlier(version, production)
            && (name in cache ==> NotEarlier(version, cache[name].version))
            && (name in cache && cache[name].hash != hash ==>
                  IsLater(NumbersOf(version), NumbersOf(cache[name].version)))
  {
    var version := Computed(production, cache, name, hash).value;
    ProductionIsDotted(production);
    if name in cache {
      var past := cache[name].version;
      if cache[name].hash == hash {
        LatestIsNotEarlier(past, production);
      } else {
        IncrementIsLater(past);
        var next := Incremented(past).value;
        LatestIsNotEarlier(next, production);
        NotEarlierThan(version, next, past);
      }
    }
  }

  /** Nor is it moved without need: the same hash keeps its version unless production has overtaken it. */
  lemma UnchangedIsKept(production: string, cache: Cache, name: string)
    requires ValidCache(cache) && name in cache && ProductionOk(production) && HashOk(cache[name].hash)
    ensures Dotted(production)
    ensures var version := Computed(production, cache, name, cache[name].hash);
            && version.Some? && Dotted(version.value)
            && NumbersOf(version.value) == NumbersOf(
                 if IsLater(NumbersOf(production), NumbersOf(cache[name].version)) then production
                 else cache[name].version)
  {
    ProductionIsDotted(production);
    StrictTotalOrder(NumbersOf(production), NumbersOf(cache[name].version));
  }

  // ---- Histories ----

  datatype Build = Build(name: string, hash: string)

  datatype Upload = Upload(production: string, builds: seq<Build>)

  // The cache that an upload writes: the packages of this build only.  Two of the same name are refused.
  function NewCache(production: string, cache: Cache, builds: seq<Build>): Option<Cache>
    requires ValidCache(cache)
  {
    if builds == [] then Some(map[])
    else
      var last := builds[|builds| - 1];
      match NewCache(production, cache, builds[..|builds| - 1])
      case None => None
      case Some(before) =>
        if last.name in before then None
        else
          match Computed(production, cache, last.name, last.hash)
          case None => None
          case Some(version) => Some(before[last.name := Info(last.hash, version)])
  }

  // cache-compute.py
  method ComputeCache(production: string, cache: Cache, builds: seq<Build>) returns (r: Option<Cache>)
    requires ValidCache(cache)
    ensures r == NewCache(production, cache, builds)
  {
    var next: Cache := map[];
    for i := 0 to |builds|
      invariant NewCache(production, cache, builds[..i]) == Some(next)
    {
      NextBuild(production, cache, builds, i);
      var version := ComputeVersion(production, cache, builds[i].name, builds[i].hash);
      if builds[i].name in next || version.None? {
        StaysFailed(production, cache, builds, i + 1);
        return None;
      }
      next := next[builds[i].name := Info(builds[i].hash, version.value)];
    }
    assert builds[..|builds|] == builds;
    r := Some(next);
  }

  lemma NextBuild(production: string, cache: Cache, builds: seq<Build>, i: nat)
    requires ValidCache(cache) && i < |builds| && NewCache(production, cache, builds[..i]).Some?
    ensures var before := NewCache(production, cache, builds[..i]).value;
            var version := Computed(production, cache, builds[i].name, builds[i].hash);
            NewCache(production, cache, builds[..i + 1]) ==
            if builds[i].name in before || version.None? then None
            else Some(before[builds[i].name := Info(builds[i].hash, version.value)])
  {
    assert builds[..i + 1][..i] == builds[..i];
  }

  lemma {:induction false} StaysFailed(production: string, cache: Cache, builds: seq<Build>, n: nat)
    requires ValidCache(cache) && n <= |builds| && NewCache(production, cache, builds[..n]).None?
    ensures NewCache(production, cache, builds).None?
    decreases |builds| - n
  {
    if n == |builds| {
      assert builds[..n] == builds;
    } else {
      assert builds[..n + 1][..n] == builds[..n];
      StaysFailed(production, cache, builds, n + 1);
    }
  }

  lemma {:induction false} NewCacheEntry(production: string, cache: Cache, builds: seq<Build>, name: string)
    requires ValidCache(cache) && NewCache(production, cache, builds).Some?
    ensures var next := NewCache(production, cache, builds).value;
            ValidCache(next) &&
            (name in next ==>
               Computed(production, cache, name, next[name].hash) == Some(next[name].version) &&
               Build(name, next[name].hash) in builds)
  {
    if builds != [] {
      var last := builds[|builds| - 1];
      NewCacheEntry(production, cache, builds[..|builds| - 1], name);
      ComputedIsNotEarlier(production, cache, last.name, last.hash);
    }
  }

  // The caches after each upload, none of which failed.
  ghost predicate History(caches: seq<Cache>, uploads: seq<Upload>) {
    && |caches| == |uploads| + 1 && ValidCache(caches[0])
    && forall i | 0 <= i < |uploads| ::
         ValidCache(caches[i]) && NewCache(uploads[i].production, caches[i], uploads[i].builds) == Some(caches[i + 1])
  }

  lemma ValidCaches(caches: seq<Cache>, uploads: seq<Upload>, i: nat)
    requires History(caches, uploads) && i < |caches|
    ensures ValidCache(caches[i])
  {
    if i > 0 {
      assert NewCache(uploads[i - 1].production, caches[i - 1], uploads[i - 1].builds) == Some(caches[i]);
      NewCacheEntry(uploads[i - 1].production, caches[i - 1], uploads[i - 1].builds, "");
    }
  }

  predicate Present(caches: seq<Cache>, name: string, early: nat, late: nat) {
    early <= late < |caches| && forall k | early <= k <= late :: name in caches[k]
  }

  // From one upload to the next, a version does not go back, and a new hash takes it forward.
  predicate GrowsBy(next: Info, info: Info) {
    && Dotted(next.version) && Dotted(info.version) && NotEarlier(next.version, info.version)
    && (next.hash != info.hash ==> IsLater(NumbersOf(next.version), NumbersOf(info.version)))
  }

  lemma OneUpload(caches: seq<Cache>, uploads: seq<Upload>, name: string, i: nat)
    requires History(caches, uploads) && i < |uploads| && name in caches[i] && name in caches[i + 1]
    ensures GrowsBy(caches[i + 1][name], caches[i][name])
  {
    NewCacheEntry(uploads[i].production, caches[i], uploads[i].builds, name);
    ComputedIsNotEarlier(uploads[i].production, caches[i], name, caches[i + 1][name].hash);
  }

  // Whether the hash changed on the way.
  predicate Changed(infos: seq<Info>) {
    exists k :: 0 < k < |infos| && infos[k].hash != infos[k - 1].hash
  }

  lemma {:induction false} InfosGrow(infos: seq<Info>)
    requires infos != [] && Dotted(infos[0].version) && forall k | 0 < k < |infos| :: GrowsBy(infos[k], infos[k - 1])
    ensures var last := infos[|infos| - 1];
            && Dotted(last.version) && NotEarlier(last.version, infos[0].version)
            && (Changed(infos) ==> IsLater(NumbersOf(last.version), NumbersOf(infos[0].version)))
  {
    if |infos| > 1 {
      var n := |infos| - 1;
      var before := infos[..n];
      InfosGrow(before);
      assert GrowsBy(infos[n], infos[n - 1]) && before[n - 1] == infos[n - 1];
      NotEarlierThan(infos[n].version, before[n - 1].version, infos[0].version);
      if Changed(infos) && infos[n].hash == infos[n - 1].hash {
        var k :| 0 < k < |infos| && infos[k].hash != infos[k - 1].hash;
        assert before[k].hash != before[k - 1].hash;
      }
    }
  }

  function Infos(caches: seq<Cache>, name: string, early: nat, late: nat): (r: seq<Info>)
    requires Present(caches, name, early, late)
    ensures |r| == late - early + 1 && forall k | 0 <= k < |r| :: r[k] == caches[early + k][name]
  {
    seq(late - early + 1, k requires 0 <= k <= late - early => caches[early + k][name])
  }

  /**
   While a package is in every upload, its version never goes back, and goes forward whenever its hash has
   changed in between.
   */
  lemma VersionsGrow(caches: seq<Cache>, uploads: seq<Upload>, name: string, early: nat, late: nat)
    requires History(caches, uploads) && Present(caches, name, early, late)
    ensures Dotted(caches[early][name].version) && Dotted(caches[late][name].version)
    ensures NotEarlier(caches[late][name].version, caches[early][name].version)
    ensures Changed(Infos(caches, name, early, late)) ==>
              IsLater(NumbersOf(caches[late][name].version), NumbersOf(caches[early][name].version))
  {
    var infos := Infos(caches, name, early, late);
    ValidCaches(caches, uploads, early);
    UploadsGrow(caches, uploads, name, early, late);
    InfosGrow(infos);
  }

  lemma UploadsGrow(caches: seq<Cache>, uploads: seq<Upload>, name: string, early: nat, late: nat)
    requires History(caches, uploads) && Present(caches, name, early, late)
    ensures var infos := Infos(caches, name, early, late);
            forall k | 0 < k < |infos| :: GrowsBy(infos[k], infos[k - 1])
  {
    var infos := Infos(caches, name, early, late);
    forall k | 0 < k < |infos| ensures GrowsBy(infos[k], infos[k - 1]) {
      OneUpload(caches, uploads, name, early + k - 1);
    }
  }

  lemma {:induction false} SomeChange(infos: seq<Info>)
    requires infos != [] && infos[0].hash != infos[|infos| - 1].hash
    ensures Changed(infos)
  {
    var n := |infos| - 1;
    if infos[n].hash == infos[n - 1].hash {
      SomeChange(infos[..n]);
      var k :| 0 < k < n && infos[..n][k].hash != infos[..n][k - 1].hash;
      assert infos[k].hash != infos[k - 1].hash;
    }
  }

  /** So one version, however written, never names two hashes. */
  lemma VersionNamesOneHash(caches: seq<Cache>, uploads: seq<Upload>, name: string, early: nat, late: nat)
    requires History(caches, uploads) && Present(caches, name, early, late)
    ensures Dotted(caches[early][name].version) && Dotted(caches[late][name].version)
    ensures Compare(caches[late][name].version, caches[early][name].version) != Earlier
    ensures Compare(caches[late][name].version, caches[early][name].version) == Same ==>
              caches[late][name].hash == caches[early][name].hash
  {
    VersionsGrow(caches, uploads, name, early, late);
    NotEarlierInDebian(caches[late][name].version, caches[early][name].version);
    if caches[late][name].hash != caches[early][name].hash { HashesDiffer(caches, name, early, late); }
  }

  lemma HashesDiffer(caches: seq<Cache>, name: string, early: nat, late: nat)
    requires Present(caches, name, early, late) && caches[late][name].hash != caches[early][name].hash
    ensures Changed(Infos(caches, name, early, late))
  {
    SomeChange(Infos(caches, name, early, late));
  }

  lemma NotEarlierInDebian(a: string, b: string)
    requires Dotted(a) && Dotted(b) && NotEarlier(a, b)
    ensures Compare(a, b) == if IsLater(NumbersOf(a), NumbersOf(b)) then Later else Same
  {
    AgreesWithDebian(a, b);
  }

  /** A package that was not in the last upload starts again at the production version. */
  lemma AbsenceForgets(caches: seq<Cache>, uploads: seq<Upload>, name: string, i: nat)
    requires History(caches, uploads) && i < |uploads| && name !in caches[i] && name in caches[i + 1]
    ensures caches[i + 1][name].version == uploads[i].production
  {
    assert NewCache(uploads[i].production, caches[i], uploads[i].builds) == Some(caches[i + 1]);
    NewCacheEntry(uploads[i].production, caches[i], uploads[i].builds, name);
  }

  /**
   So after an absence the version is later than an earlier one exactly if production is; and it names a second hash
   exactly if production is that earlier version and the hash is another.
   */
  lemma AbsenceExactly(caches: seq<Cache>, uploads: seq<Upload>, name: string, early: nat, i: nat)
    requires History(caches, uploads) && early <= i < |uploads|
    requires name in caches[early] && name !in caches[i] && name in caches[i + 1]
    ensures Dotted(caches[early][name].version) && Dotted(caches[i + 1][name].version) && Dotted(uploads[i].production)
    ensures var past, next := caches[early][name], caches[i + 1][name];
            && (IsLater(NumbersOf(next.version), NumbersOf(past.version)) <==>
                  IsLater(NumbersOf(uploads[i].production), NumbersOf(past.version)))
            && (Compare(next.version, past.version) == Same && next.hash != past.hash <==>
                  NumbersOf(uploads[i].production) == NumbersOf(past.version) && next.hash != past.hash)
  {
    ValidCaches(caches, uploads, early);
    ValidCaches(caches, uploads, i + 1);
    AbsenceForgets(caches, uploads, name, i);
    AgreesWithDebian(caches[i + 1][name].version, caches[early][name].version);
    StrictTotalOrder(NumbersOf(caches[i + 1][name].version), NumbersOf(caches[early][name].version));
  }

  function HashOf(c: char): string {
    seq(64, _ => c)
  }

  lemma SomeProduction() returns (version: string)
    ensures Dotted(version) && ProductionOk(version)
  {
    var one := "1";
    var parts := [one, one, one];
    version := Join(parts, ".");
    assert Digits(one) && '.' !in one;
    SplitJoin(parts, '.');
    ProductionIsDotted(version);
  }

  lemma OneBuild(cache: Cache, hash: string, production: string)
    requires HashOk(hash) && ProductionOk(production) && "p" !in cache && ValidCache(cache)
    ensures NewCache(production, cache, [Build("p", hash)]) == Some(map["p" := Info(hash, production)])
  {
    assert [Build("p", hash)][..0] == [];
    assert Computed(production, cache, "p", hash) == Some(production);
  }

  /** Without that, it can: a package built, dropped and built anew has one version for two hashes. */
  lemma DroppedPackageReusesVersion()
    ensures exists caches: seq<Cache>, uploads: seq<Upload> :: History(caches, uploads) && |caches| == 4 &&
              "p" in caches[1] && "p" in caches[3] &&
              caches[1]["p"].version == caches[3]["p"].version && caches[1]["p"].hash != caches[3]["p"].hash
  {
    var version := SomeProduction();
    DropAndReturn(version, HashOf('a'), HashOf('b'));
  }

  lemma DropAndReturn(production: string, a: string, b: string)
    requires ProductionOk(production) && Dotted(production) && HashOk(a) && HashOk(b) && a[0] != b[0]
    ensures exists caches: seq<Cache>, uploads: seq<Upload> :: History(caches, uploads) && |caches| == 4 &&
              "p" in caches[1] && "p" in caches[3] &&
              caches[1]["p"].version == caches[3]["p"].version && caches[1]["p"].hash != caches[3]["p"].hash
  {
    var first, second := map["p" := Info(a, production)], map["p" := Info(b, production)];
    var caches: seq<Cache> := [map[], first, map[], second];
    var uploads := [Upload(production, [Build("p", a)]), Upload(production, []), Upload(production, [Build("p", b)])];
    OneBuild(map[], a, production);
    OneBuild(map[], b, production);
    assert ValidCache(first);
    assert History(caches, uploads);
  }

  // ---- The version exactly ----

  // The later of two versions, or the second.
  predicate IsLaterOf(version: string, a: string, b: string)
    requires Dotted(a) && Dotted(b)
  {
    version == if IsLater(NumbersOf(a), NumbersOf(b)) then a else b
  }

  // Three numbers with dots between them.
  predicate ThreeNumbers(version: string) {
    Dotted(version) && |Split(version, '.')| == 3
  }

  // Letters and digits.
  predicate SixtyFour(hash: string) {
    |hash| == 64 && forall i | 0 <= i < 64 :: '0' <= hash[i] <= '9' || 'a' <= hash[i] <= 'z' || 'A' <= hash[i] <= 'Z'
  }

  /**
   A package that is not in the cache gets production's version; one with the same hash keeps its own unless production's
   is later or equal; one with a new hash gets its own with the last number increased, unless production's is later or
   equal to that.
   */
  lemma VersionExactly(production: string, cache: Cache, name: string, hash: string)
    requires ValidCache(cache) && ThreeNumbers(production) && SixtyFour(hash)
    ensures Dotted(production)
    ensures name !in cache ==> Computed(production, cache, name, hash) == Some(production)
    ensures name in cache && cache[name].hash == hash ==>
              && Computed(production, cache, name, hash).Some?
              && IsLaterOf(Computed(production, cache, name, hash).value, cache[name].version, production)
    ensures name in cache && cache[name].hash != hash ==>
              var past, r := cache[name].version, Computed(production, cache, name, hash);
              && (r.None? <==> Padded(LastPart(past)))
              && (r.Some? ==> exists next :: && Dotted(next) && NumbersOf(next) == OneMore(NumbersOf(past))
                                             && IsLaterOf(r.value, next, production))
  {
    ProductionIsDotted(production);
    if name in cache && cache[name].hash != hash {
      var past := cache[name].version;
      IncrementFails(past);
      if Incremented(past).Some? {
        IncrementAddsOne(past);
        assert IsLaterOf(Computed(production, cache, name, hash).value, Incremented(past).value, production);
      }
    }
  }

  lemma IncrementFails(x: string)
    requires Dotted(x)
    ensures Incremented(x).None? <==> Padded(LastPart(x))
  {
    var parts := Split(x, '.');
    CanonicalExactly(parts[|parts| - 1]);
  }

  /** Without a good production version or hash, the script fails. */
  lemma BadInputFails(production: string, cache: Cache, name: string, hash: string)
    requires ValidCache(cache) && !(ThreeNumbers(production) && SixtyFour(hash))
    ensures Computed(production, cache, name, hash) == None
  {
    ProductionIsDotted(production);
  }

  predicate DistinctNames(builds: seq<Build>) {
    forall i, j | 0 <= i < j < |builds| :: builds[i].name != builds[j].name
  }

  // All can be computed, against the cache from before.
  ghost predicate AllComputed(production: string, cache: Cache, builds: seq<Build>)
    requires ValidCache(cache)
  {
    forall i | 0 <= i < |builds| :: Computed(production, cache, builds[i].name, builds[i].hash).Some?
  }

  // The cache of the builds: each under its name, with its hash and its version.
  ghost predicate IsCacheOf(production: string, cache: Cache, builds: seq<Build>, next: Cache)
    requires ValidCache(cache)
  {
    && (forall i | 0 <= i < |builds| ::
          && builds[i].name in next && next[builds[i].name].hash == builds[i].hash
          && Computed(production, cache, builds[i].name, builds[i].hash) == Some(next[builds[i].name].version))
    && forall name | name in next :: exists i :: 0 <= i < |builds| && builds[i].name == name
  }

  lemma NamesSnoc(builds: seq<Build>)
    requires builds != []
    ensures DistinctNames(builds) <==>
            && DistinctNames(builds[..|builds| - 1])
            && forall i | 0 <= i < |builds| - 1 :: builds[i].name != builds[|builds| - 1].name
  {
    assert forall i | 0 <= i < |builds| - 1 :: builds[..|builds| - 1][i] == builds[i];
  }

  lemma ComputedSnoc(production: string, cache: Cache, builds: seq<Build>)
    requires ValidCache(cache) && builds != []
    ensures var last := builds[|builds| - 1];
            AllComputed(production, cache, builds) <==>
            AllComputed(production, cache, builds[..|builds| - 1]) && Computed(production, cache, last.name, last.hash).Some?
  {
    assert forall i | 0 <= i < |builds| - 1 :: builds[..|builds| - 1][i] == builds[i];
  }

  lemma NewCacheLast(production: string, cache: Cache, builds: seq<Build>)
    requires ValidCache(cache) && builds != []
    ensures var before, last := NewCache(production, cache, builds[..|builds| - 1]), builds[|builds| - 1];
            var version := Computed(production, cache, last.name, last.hash);
            NewCache(production, cache, builds) ==
            if before.None? || last.name in before.value || version.None? then None
            else Some(before.value[last.name := Info(last.hash, version.value)])
  {
  }

  /** The new cache is written exactly if the names differ and all versions can be computed, and is then that of the builds. */
  lemma {:induction false} CacheExactly(production: string, cache: Cache, builds: seq<Build>)
    requires ValidCache(cache)
    ensures NewCache(production, cache, builds).Some? <==> DistinctNames(builds) && AllComputed(production, cache, builds)
    ensures NewCache(production, cache, builds).Some? ==>
              IsCacheOf(production, cache, builds, NewCache(production, cache, builds).value)
  {
    if builds != [] {
      var init := builds[..|builds| - 1];
      CacheExactly(production, cache, init);
      NamesSnoc(builds);
      ComputedSnoc(production, cache, builds);
      NewCacheLast(production, cache, builds);
      if NewCache(production, cache, init).Some? {
        var before := NewCache(production, cache, init).value;
        LastName(production, cache, builds, before);
        if NewCache(production, cache, builds).Some? { LastBuild(production, cache, builds, before); }
      }
    }
  }

  lemma LastName(production: string, cache: Cache, builds: seq<Build>, before: Cache)
    requires ValidCache(cache) && builds != [] && IsCacheOf(production, cache, builds[..|builds| - 1], before)
    ensures builds[|builds| - 1].name in before <==> exists i :: 0 <= i < |builds| - 1 && builds[i].name == builds[|builds| - 1].name
  {
    var n := |builds| - 1;
    assert forall i | 0 <= i < n :: builds[..n][i] == builds[i];
    if builds[n].name in before {
      var i :| 0 <= i < |builds[..n]| && builds[..n][i].name == builds[n].name;
      assert builds[i].name == builds[n].name;
    }
  }

  lemma LastBuild(production: string, cache: Cache, builds: seq<Build>, before: Cache)
    requires ValidCache(cache) && builds != [] && IsCacheOf(production, cache, builds[..|builds| - 1], before)
    requires var last := builds[|builds| - 1]; last.name !in before && Computed(production, cache, last.name, last.hash).Some?
    ensures var last := builds[|builds| - 1];
            IsCacheOf(production, cache, builds,
                      before[last.name := Info(last.hash, Computed(production, cache, last.name, last.hash).value)])
  {
    var n := |builds| - 1;
    var last := builds[n];
    var next := before[last.name := Info(last.hash, Computed(production, cache, last.name, last.hash).value)];
    forall i | 0 <= i < |builds|
      ensures && builds[i].name in next && next[builds[i].name].hash == builds[i].hash
              && Computed(production, cache, builds[i].name, builds[i].hash) == Some(next[builds[i].name].version)
    {
      if i < n { assert builds[..n][i] == builds[i]; }
    }
    forall name | name in next ensures exists i :: 0 <= i < |builds| && builds[i].name == name {
      if name in before {
        var i :| 0 <= i < |builds[..n]| && builds[..n][i].name == name;
        assert builds[i].name == name;
      } else {
        assert builds[n].name == name;
      }
    }
  }
}
