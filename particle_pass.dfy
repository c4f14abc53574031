/** Book-keeping of the particle animation pass: where each particle system's
    slice of the shared animation buffer starts, how the initial buffer data
    is filled, and the frame-control state that decides how many update
    dispatches a frame issues. */
module ParticlePass {
  import opened UInt32

  datatype Option<T> = None | Some(value: T)

  datatype Float3 = Float3(x: real, y: real, z: real)

  const Zero3: Float3 := Float3(0.0, 0.0, 0.0)

  /** The scene's description of one particle system: only the fields this pass reads or writes. */
  datatype ParticleSystem = ParticleSystem(
    name: string,
    numberParticles: nat,
    active: bool,
    spawnPosition: Float3,
    initialRadius: real,
    particleBufferOffset: nat)

  datatype ParticleSettings = ParticleSettings(
    lifetime: real,
    randomLifetime: real,
    radius: real,
    randomRadiusOffset: real,
    spawnPosition: Float3,
    initialVelocityDirection: Float3,
    initialVelocityStrength: real,
    velocityRandom: real,
    gravity: real,
    gravityRandom: real,
    spawnRadius: real,
    spreadAngle: real,
    windDirection: Float3,
    windStrength: real)

  /** The member initialisers of ParticleSettings. */
  const DefaultSettings: ParticleSettings := ParticleSettings(
    500.0, 30.0, 1.0, 0.5, Zero3, Float3(0.0, 1.0, 0.0), 1.0, 0.5, 0.1, 0.01, 0.1, 1.2, Float3(0.0, 1.0, 0.0), 0.0)

  /** The settings a system starts with: the defaults, with the scene's spawn position and radius. */
  function InitialSettings(ps: ParticleSystem): (s: ParticleSettings)
    ensures s.spawnPosition == ps.spawnPosition && s.radius == ps.initialRadius
    ensures s.(spawnPosition := Zero3, radius := 1.0) == DefaultSettings
  {
    DefaultSettings.(spawnPosition := ps.spawnPosition, radius := ps.initialRadius)
  }

  /** One element of the animation buffer. */
  datatype ParticleAnimateData = ParticleAnimateData(lifetime: real, velocity: Float3, isValid: bool)

  /** A value-initialised ParticleAnimateData. */
  const DefaultAnimateData: ParticleAnimateData := ParticleAnimateData(0.0, Zero3, false)

  /** What getInitialData writes into a slot: no velocity and not yet valid (the lifetime is random). */
  predicate IsInitialParticle(d: ParticleAnimateData)
  {
    d.velocity == Zero3 && !d.isValid
  }

  /** The integer part of the constant buffer of one per-system update dispatch. */
  datatype SystemDispatch = SystemDispatch(reset: bool, frameCount: u32, particleBufferOffset: nat, numParticles: nat)

  const DefaultConfigurationName: string := "ParticleSettings"
  const ConfigExtension: string := ".prtsett"

  // ---------------------------------------------------------------------------
  // Buffer layout
  // ---------------------------------------------------------------------------

  /** The number of particles of all systems together. */
  function TotalParticles(systems: seq<ParticleSystem>): nat
  {
    if systems == [] then 0
    else TotalParticles(systems[..|systems| - 1]) + systems[|systems| - 1].numberParticles
  }

  lemma TotalPrefixStep(systems: seq<ParticleSystem>, i: nat)
    requires i < |systems|
    ensures TotalParticles(systems[..i + 1]) == TotalParticles(systems[..i]) + systems[i].numberParticles
  {
    assert systems[..i + 1][..i] == systems[..i];
  }

  lemma {:induction false} TotalPrefixMonotone(systems: seq<ParticleSystem>, i: nat, j: nat)
    requires i <= j <= |systems|
    ensures TotalParticles(systems[..i]) <= TotalParticles(systems[..j])
    decreases j - i
  {
    if i < j {
      TotalPrefixMonotone(systems, i, j - 1);
      TotalPrefixStep(systems, j - 1);
    }
  }

  /** The total depends only on the particle counts. */
  lemma {:induction false} TotalSameCounts(s: seq<ParticleSystem>, t: seq<ParticleSystem>)
    requires |s| == |t|
    requires forall i :: 0 <= i < |s| ==> s[i].numberParticles == t[i].numberParticles
    ensures TotalParticles(s) == TotalParticles(t)
    decreases |s|
  {
    if s != [] {
      TotalSameCounts(s[..|s| - 1], t[..|t| - 1]);
    }
  }

  /** offsets[i] is the number of particles of the systems before system i. */
  predicate PrefixSums(systems: seq<ParticleSystem>, offsets: seq<nat>)
  {
    |offsets| == |systems| &&
    forall i {:trigger offsets[i]} :: 0 <= i < |systems| ==> offsets[i] == TotalParticles(systems[..i])
  }

  /** Slot k of the buffer belongs to what getInitialData(index) fills: every
      slot for a negative index, the slice of system index otherwise. */
  predicate InFilledRange(systems: seq<ParticleSystem>, index: int, k: int)
    requires index < |systems|
  {
    if index < 0 then 0 <= k < TotalParticles(systems)
    else TotalParticles(systems[..index]) <= k < TotalParticles(systems[..index + 1])
  }

  /** System i's slice ends at the running total after it, inside the buffer. */
  lemma SliceWithinTotal(systems: seq<ParticleSystem>, i: nat)
    requires i < |systems|
    ensures TotalParticles(systems[..i]) + systems[i].numberParticles == TotalParticles(systems[..i + 1])
    ensures TotalParticles(systems[..i + 1]) <= TotalParticles(systems)
  {
    TotalPrefixStep(systems, i);
    TotalPrefixMonotone(systems, i + 1, |systems|);
    assert systems[..|systems|] == systems;
  }

  /** For a system index, the filled range is the system's slice: it starts
      at the system's offset and holds its particle count. */
  lemma FilledRangeIsSlice(systems: seq<ParticleSystem>, offsets: seq<nat>, index: nat, k: int)
    requires PrefixSums(systems, offsets) && index < |systems|
    ensures InFilledRange(systems, index, k) <==> offsets[index] <= k < offsets[index] + systems[index].numberParticles
  {
    TotalPrefixStep(systems, index);
  }

  /** The per-system slices tile the buffer: every slot lies in the slice of
      exactly one system. */
  lemma {:induction false} SlicesTile(systems: seq<ParticleSystem>, k: nat) returns (i: nat)
    requires k < TotalParticles(systems)
    ensures i < |systems| && InFilledRange(systems, i, k)
    ensures forall i' :: 0 <= i' < |systems| && InFilledRange(systems, i', k) ==> i' == i
    decreases |systems|
  {
    var n := |systems|;
    assert systems[..n] == systems;
    if k >= TotalParticles(systems[..n - 1]) {
      i := n - 1;
    } else {
      i := SlicesTile(systems[..n - 1], k);
      assert systems[..n - 1][..i] == systems[..i];
      assert systems[..n - 1][..i + 1] == systems[..i + 1];
    }
    forall i' | 0 <= i' < n && InFilledRange(systems, i', k) ensures i' == i {
      if i' < i {
        SlicesDisjoint(systems, i', i, k);
      } else if i < i' {
        SlicesDisjoint(systems, i, i', k);
      }
    }
  }

  /** Two different systems' slices share no slot. */
  lemma SlicesDisjoint(systems: seq<ParticleSystem>, a: nat, b: nat, k: int)
    requires a < b < |systems|
    ensures !(InFilledRange(systems, a, k) && InFilledRange(systems, b, k))
  {
    TotalPrefixMonotone(systems, a + 1, b);
  }

  // ---------------------------------------------------------------------------
  // Dispatches
  // ---------------------------------------------------------------------------

  /** The number of active systems. */
  function CountActive(systems: seq<ParticleSystem>): nat
  {
    if systems == [] then 0
    else CountActive(systems[..|systems| - 1]) + (if systems[|systems| - 1].active then 1 else 0)
  }

  /** One dispatchParticlePass: a dispatch per active system, in scene order. */
  function ActiveDispatches(systems: seq<ParticleSystem>, reset: bool, frame: u32): seq<SystemDispatch>
  {
    if systems == [] then []
    else
      var ps := systems[|systems| - 1];
      ActiveDispatches(systems[..|systems| - 1], reset, frame) +
      (if ps.active then [SystemDispatch(reset, frame, ps.particleBufferOffset, ps.numberParticles)] else [])
  }

  /** count calls of dispatchParticlePass from the given reset flag and frame
      counter: only the first sees the reset flag, and the frame counter
      advances by one per call. */
  function Dispatches(systems: seq<ParticleSystem>, reset: bool, frame: u32, count: nat): seq<SystemDispatch>
  {
    if count == 0 then []
    else Dispatches(systems, reset, frame, count - 1) + ActiveDispatches(systems, reset && count == 1, AddWrap(frame, count - 1))
  }

  /** One pass dispatches every active system once, and only those, all with
      the given reset flag and frame counter. */
  lemma {:induction false} ActiveDispatchesShape(systems: seq<ParticleSystem>, reset: bool, frame: u32)
    ensures |ActiveDispatches(systems, reset, frame)| == CountActive(systems)
    ensures forall d :: d in ActiveDispatches(systems, reset, frame) ==> d.reset == reset && d.frameCount == frame
    decreases |systems|
  {
    if systems != [] {
      ActiveDispatchesShape(systems[..|systems| - 1], reset, frame);
    }
  }

  /** When every system is active (as setScene leaves them), a pass
      dispatches the systems in scene order with their own slices. */
  lemma {:induction false} AllActiveDispatches(systems: seq<ParticleSystem>, reset: bool, frame: u32)
    requires forall i :: 0 <= i < |systems| ==> systems[i].active
    ensures CountActive(systems) == |systems|
    ensures |ActiveDispatches(systems, reset, frame)| == |systems|
    ensures forall i :: 0 <= i < |systems| ==>
      ActiveDispatches(systems, reset, frame)[i] == SystemDispatch(reset, frame, systems[i].particleBufferOffset, systems[i].numberParticles)
    decreases |systems|
  {
    if systems != [] {
      var init := systems[..|systems| - 1];
      AllActiveDispatches(init, reset, frame);
      ActiveDispatchesShape(systems, reset, frame);
      forall i | 0 <= i < |systems|
        ensures ActiveDispatches(systems, reset, frame)[i] == SystemDispatch(reset, frame, systems[i].particleBufferOffset, systems[i].numberParticles)
      {
        if i < |init| {
          assert init[i] == systems[i];
        }
      }
    }
  }

  /** b * m by repeated addition, which keeps the block proofs linear. */
  function Times(b: nat, m: nat): nat
  {
    if b == 0 then 0 else Times(b - 1, m) + m
  }

  lemma {:induction false} TimesIsProduct(b: nat, m: nat)
    ensures Times(b, m) == b * m
  {
    if b > 0 {
      TimesIsProduct(b - 1, m);
      assert b * m == (b - 1) * m + m;
    }
  }

  lemma {:induction false} DispatchesLengthTimes(systems: seq<ParticleSystem>, reset: bool, frame: u32, count: nat)
    ensures |Dispatches(systems, reset, frame, count)| == Times(count, CountActive(systems))
  {
    if count > 0 {
      DispatchesLengthTimes(systems, reset, frame, count - 1);
      ActiveDispatchesShape(systems, reset && count == 1, AddWrap(frame, count - 1));
    }
  }

  /** count passes issue count * (active systems) dispatches. */
  lemma DispatchesLength(systems: seq<ParticleSystem>, reset: bool, frame: u32, count: nat)
    ensures |Dispatches(systems, reset, frame, count)| == count * CountActive(systems)
  {
    DispatchesLengthTimes(systems, reset, frame, count);
    TimesIsProduct(count, CountActive(systems));
  }

  /** Appending l to p leaves p's slices alone and puts l right after p. */
  lemma SliceOfAppend<T>(p: seq<T>, l: seq<T>, lo: nat, hi: nat)
    requires lo <= hi <= |p|
    ensures (p + l)[lo..hi] == p[lo..hi]
    ensures (p + l)[|p|..|p| + |l|] == l
  {
    assert forall i :: lo <= i < hi ==> (p + l)[i] == p[i];
  }

  /** count passes are count - 1 passes followed by one more. */
  lemma DispatchesSnoc(systems: seq<ParticleSystem>, reset: bool, frame: u32, count: nat)
    requires count > 0
    ensures Dispatches(systems, reset, frame, count) ==
      Dispatches(systems, reset, frame, count - 1) + ActiveDispatches(systems, reset && count == 1, AddWrap(frame, count - 1))
    ensures |Dispatches(systems, reset, frame, count - 1)| == Times(count - 1, CountActive(systems))
    ensures |ActiveDispatches(systems, reset && count == 1, AddWrap(frame, count - 1))| == CountActive(systems)
  {
    DispatchesLengthTimes(systems, reset, frame, count - 1);
    ActiveDispatchesShape(systems, reset && count == 1, AddWrap(frame, count - 1));
  }

  lemma {:induction false} DispatchesBlockTimes(systems: seq<ParticleSystem>, reset: bool, frame: u32, count: nat, b: nat)
    requires b < count
    ensures |Dispatches(systems, reset, frame, count)| == Times(count, CountActive(systems))
    ensures Times(b + 1, CountActive(systems)) <= Times(count, CountActive(systems))
    ensures Dispatches(systems, reset, frame, count)[Times(b, CountActive(systems))..Times(b + 1, CountActive(systems))] ==
      ActiveDispatches(systems, reset && b == 0, AddWrap(frame, b))
  {
    var m := CountActive(systems);
    DispatchesSnoc(systems, reset, frame, count);
    var prev := Dispatches(systems, reset, frame, count - 1);
    var last := ActiveDispatches(systems, reset && count == 1, AddWrap(frame, count - 1));
    var lo, hi := Times(b, m), Times(b + 1, m);
    if b == count - 1 {
      SliceOfAppend(prev, last, lo, lo);
    } else {
      DispatchesBlockTimes(systems, reset, frame, count - 1, b);
      SliceOfAppend(prev, last, lo, hi);
    }
  }

  /** Block b of count passes is one pass with frame counter frame + b
      (modulo 2^32) that carries the reset flag only when b is the first. */
  lemma DispatchesBlock(systems: seq<ParticleSystem>, reset: bool, frame: u32, count: nat, b: nat)
    requires b < count
    ensures |Dispatches(systems, reset, frame, count)| == count * CountActive(systems)
    ensures (b + 1) * CountActive(systems) <= count * CountActive(systems)
    ensures Dispatches(systems, reset, frame, count)[b * CountActive(systems)..(b + 1) * CountActive(systems)] ==
      ActiveDispatches(systems, reset && b == 0, AddWrap(frame, b))
  {
    var m := CountActive(systems);
    DispatchesBlockTimes(systems, reset, frame, count, b);
    TimesIsProduct(b, m);
    TimesIsProduct(b + 1, m);
    TimesIsProduct(count, m);
  }

  // ---------------------------------------------------------------------------
  // Configuration file names
  // ---------------------------------------------------------------------------

  /** The file name storeCurrentConfiguration writes: the configuration name,
      or the default name when it is empty, with the settings extension. */
  function ConfigFileName(configurationName: string): (r: string)
    ensures |r| > |ConfigExtension| && r[|r| - |ConfigExtension|..] == ConfigExtension
    ensures configurationName != [] ==> r[..|r| - |ConfigExtension|] == configurationName
    ensures configurationName == [] ==> r == "ParticleSettings.prtsett"
  {
    (if configurationName == [] then DefaultConfigurationName else configurationName) + ConfigExtension
  }

  /** The position of the last '.' of a file name. */
  function LastDot(s: string): (r: Option<nat>)
    ensures r.Some? ==> r.value < |s| && s[r.value] == '.' && forall j :: r.value < j < |s| ==> s[j] != '.'
    ensures r.None? ==> forall j :: 0 <= j < |s| ==> s[j] != '.'
  {
    if s == [] then None
    else if s[|s| - 1] == '.' then Some(|s| - 1)
    else LastDot(s[..|s| - 1])
  }

  /** The extension of a file name as the filesystem library defines it: from
      the last '.', unless that dot starts the name or the name is "." or "..". */
  function Extension(fileName: string): (e: string)
    ensures |e| <= |fileName| && e == fileName[|fileName| - |e|..]
  {
    if fileName == "." || fileName == ".." then ""
    else match LastDot(fileName)
      case None => ""
      case Some(i) => if i == 0 then "" else fileName[i..]
  }

  /** The file name without its extension (the listed label of a settings file). */
  function Stem(fileName: string): (s: string)
    ensures s + Extension(fileName) == fileName
  {
    fileName[..|fileName| - |Extension(fileName)|]
  }

  lemma {:induction false} LastDotAppend(a: string, b: string)
    requires forall j :: 0 <= j < |b| ==> b[j] != '.'
    ensures LastDot(a + b) == LastDot(a)
    decreases |b|
  {
    if b != [] {
      assert (a + b)[|a + b| - 1] == b[|b| - 1];
      assert (a + b)[..|a + b| - 1] == a + b[..|b| - 1];
      LastDotAppend(a, b[..|b| - 1]);
    } else {
      assert a + b == a;
    }
  }

  /** A stored configuration is found again: its file carries the settings
      extension, so the file list shows it, and its label is the configuration
      name (or the default), so loading the label opens the file just written. */
  lemma StoredConfigurationRoundTrip(configurationName: string)
    requires forall j :: 0 <= j < |configurationName| ==> configurationName[j] != '/' && configurationName[j] != '\\'
    ensures Extension(ConfigFileName(configurationName)) == ConfigExtension
    ensures Stem(ConfigFileName(configurationName)) == (if configurationName == [] then DefaultConfigurationName else configurationName)
    ensures Stem(ConfigFileName(configurationName)) + ConfigExtension == ConfigFileName(configurationName)
  {
    var base := if configurationName == [] then DefaultConfigurationName else configurationName;
    assert ConfigFileName(configurationName) == (base + ".") + "prtsett";
    LastDotAppend(base + ".", "prtsett");
    assert LastDot(base + ".") == Some(|base|);
  }

  // ---------------------------------------------------------------------------
  // The pass
  // ---------------------------------------------------------------------------

  /** The loop of setScene: every system is set active and gets the default
      settings with its spawn position and radius, and its offset is the
      running total of the particle counts before it. */
  method ActivateSystems(scene: seq<ParticleSystem>)
    returns (particleSystems: seq<ParticleSystem>, settings: seq<ParticleSettings>, offsets: seq<nat>, total: nat)
    ensures |particleSystems| == |scene| && |settings| == |scene| && |offsets| == |scene|
    ensures forall i :: 0 <= i < |scene| ==> particleSystems[i] == scene[i].(active := true)
    ensures forall i :: 0 <= i < |scene| ==> settings[i] == InitialSettings(scene[i])
    ensures PrefixSums(scene, offsets) && PrefixSums(particleSystems, offsets)
    ensures total == TotalParticles(scene) == TotalParticles(particleSystems)
  {
    particleSystems := scene;
    settings := [];
    offsets := [];
    total := 0;
    for i := 0 to |particleSystems|
      invariant |particleSystems| == |scene|
      invariant |settings| == i && |offsets| == i
      invariant forall j :: 0 <= j < |particleSystems| ==>
        particleSystems[j] == if j < i then scene[j].(active := true) else scene[j]
      invariant forall j :: 0 <= j < i ==> settings[j] == InitialSettings(scene[j])
      invariant forall j {:trigger offsets[j]} :: 0 <= j < i ==> offsets[j] == TotalParticles(scene[..j])
      invariant total == TotalParticles(scene[..i])
    {
      var ps := particleSystems[i];
      particleSystems := particleSystems[i := ps.(active := true)];
      settings := settings + [InitialSettings(ps)];
      offsets := offsets + [total];
      TotalPrefixStep(scene, i);
      total := total + ps.numberParticles;
    }
    assert scene[..|scene|] == scene;
    ActivationKeepsTotals(scene, particleSystems);
  }

  /** Setting systems active changes no running total of particle counts. */
  lemma ActivationKeepsTotals(scene: seq<ParticleSystem>, activated: seq<ParticleSystem>)
    requires |activated| == |scene|
    requires forall i :: 0 <= i < |scene| ==> activated[i] == scene[i].(active := true)
    ensures TotalParticles(activated) == TotalParticles(scene)
    ensures forall i :: 0 <= i < |scene| ==> TotalParticles(activated[..i]) == TotalParticles(scene[..i])
  {
    TotalSameCounts(activated, scene);
    forall i | 0 <= i < |scene| ensures TotalParticles(activated[..i]) == TotalParticles(scene[..i]) {
      TotalSameCounts(activated[..i], scene[..i]);
    }
  }

  lemma ScaledByUnit(l: real, r: real)
    requires -1.0 <= r <= 1.0
    ensures l >= 0.0 ==> -l <= l * r <= l
  {
    if l >= 0.0 {
      assert l * r <= l * 1.0;
      assert l * (-1.0) <= l * r;
    }
  }

  /** The inner loop of getInitialData: the count slots from offset on get
      a fresh particle with a random lifetime in [-lifetime, lifetime]; the
      other slots keep their value. */
  method FillSlice(data: seq<ParticleAnimateData>, offset: nat, count: nat, lifetime: real)
    returns (filled: seq<ParticleAnimateData>)
    requires offset + count <= |data|
    ensures |filled| == |data|
    ensures forall k :: 0 <= k < |data| ==>
      if offset <= k < offset + count then IsInitialParticle(filled[k]) else filled[k] == data[k]
    ensures lifetime >= 0.0 ==> forall k :: offset <= k < offset + count ==> -lifetime <= filled[k].lifetime <= lifetime
  {
    filled := data;
    for j := 0 to count
      invariant |filled| == |data|
      invariant forall k :: 0 <= k < |data| ==>
        if offset <= k < offset + j then IsInitialParticle(filled[k]) else filled[k] == data[k]
      invariant lifetime >= 0.0 ==> forall k :: offset <= k < offset + j ==> -lifetime <= filled[k].lifetime <= lifetime
    {
      var rnd: real :| -1.0 <= rnd <= 1.0;
      ScaledByUnit(lifetime, rnd);
      var particle := ParticleAnimateData(lifetime * rnd, Zero3, false);
      filled := filled[j + offset := particle];
    }
  }

  class ParticlePass {
    var frameCounter: u32
    var reinitializeBuffer: bool
    var reset: bool
    var enableSimulateOnStartup: bool
    var useSimulation: bool
    var simulationSteps: u32

    var hasScene: bool
    /** The scene's particle systems. */
    var systems: seq<ParticleSystem>
    var particleSettings: seq<ParticleSettings>
    var particleBufferOffsets: seq<nat>
    var totalBufferSize: nat
    var configurationName: string
    /** mpParticleAnimateDataBuffer, null while there is none. */
    var animateDataBuffer: array?<ParticleAnimateData>
    /** The update dispatches issued so far. */
    var dispatchLog: seq<SystemDispatch>

    ghost predicate Valid()
      reads this
    {
      |particleSettings| == |systems| && |particleBufferOffsets| == |systems| &&
      PrefixSums(systems, particleBufferOffsets) &&
      totalBufferSize == TotalParticles(systems) &&
      (animateDataBuffer != null ==> animateDataBuffer.Length == totalBufferSize)
    }

    constructor ()
      ensures Valid()
      ensures frameCounter == 0 && !reinitializeBuffer && !reset
      ensures enableSimulateOnStartup && useSimulation && simulationSteps == 100
      ensures totalBufferSize == 0 && configurationName == DefaultConfigurationName
      ensures !hasScene && systems == [] && particleSettings == [] && particleBufferOffsets == []
      ensures animateDataBuffer == null && dispatchLog == []
    {
      frameCounter := 0;
      reinitializeBuffer := false;
      reset := false;
      enableSimulateOnStartup := true;
      useSimulation := true;
      simulationSteps := 100;
      hasScene := false;
      systems := [];
      particleSettings := [];
      particleBufferOffsets := [];
      totalBufferSize := 0;
      configurationName := DefaultConfigurationName;
      animateDataBuffer := null;
      dispatchLog := [];
    }

    /** getInitialData: a vector of the global buffer size in which the slots
        of every system (negative index) or of system index only are set to a
        fresh particle; every other slot keeps the default value. */
    method GetInitialData(index: int) returns (initialData: seq<ParticleAnimateData>)
      requires Valid() && hasScene
      requires index < |systems|
      ensures |initialData| == totalBufferSize
      ensures forall k :: 0 <= k < |initialData| ==>
        if InFilledRange(systems, index, k) then IsInitialParticle(initialData[k]) else initialData[k] == DefaultAnimateData
    {
      initialData := seq(totalBufferSize, _ => DefaultAnimateData);
      var offset: nat := if index >= 0 then particleBufferOffsets[index] else 0;
      var i: nat := if index >= 0 then index else 0;
      var size: nat := if index >= 0 then index + 1 else |systems|;
      ghost var first := offset;
      assert first == TotalParticles(systems[..i]);
      while i < size
        invariant i <= size <= |systems|
        invariant offset == TotalParticles(systems[..i])
        invariant first <= offset
        invariant |initialData| == totalBufferSize
        invariant forall k :: 0 <= k < |initialData| ==>
          if first <= k < offset then IsInitialParticle(initialData[k]) else initialData[k] == DefaultAnimateData
      {
        var ps := systems[i];
        var pSett := particleSettings[i];
        var combinedLifetime := pSett.lifetime + pSett.randomLifetime;
        SliceWithinTotal(systems, i);
        ghost var next := TotalParticles(systems[..i + 1]);
        initialData := FillSlice(initialData, offset, ps.numberParticles, combinedLifetime);
        offset := offset + ps.numberParticles;
        i := i + 1;
        assert offset == next;
      }
      assert systems[..|systems|] == systems;
    }

    /** setScene: with a scene, mark every system active and rebuild the
        settings, the offsets and the total; if there are particles, load the
        first settings file of the scene's folder and fill a new buffer.
        settingsFile is that file's entries by system name, already parsed,
        or None when the folder lists no settings file or it cannot be read.
        Without a scene nothing changes. */
    method SetScene(scene: Option<seq<ParticleSystem>>, settingsFile: Option<map<string, ParticleSettings>>)
      requires Valid()
      modifies this`hasScene, this`systems, this`particleSettings, this`particleBufferOffsets
      modifies this`totalBufferSize, this`animateDataBuffer
      ensures Valid()
      ensures scene.None? ==> unchanged(this)
      ensures scene.Some? ==> hasScene && |systems| == |scene.value|
      ensures scene.Some? ==> forall i :: 0 <= i < |systems| ==> systems[i] == scene.value[i].(active := true)
      ensures scene.Some? ==> forall i :: 0 <= i < |systems| ==>
        particleSettings[i] ==
          if totalBufferSize > 0 && settingsFile.Some? && scene.value[i].name in settingsFile.value
          then settingsFile.value[scene.value[i].name]
          else InitialSettings(scene.value[i])
      ensures scene.Some? ==> PrefixSums(scene.value, particleBufferOffsets)
      ensures scene.Some? ==> totalBufferSize == TotalParticles(scene.value)
      ensures scene.Some? ==> (animateDataBuffer != null <==> totalBufferSize > 0)
      ensures scene.Some? && animateDataBuffer != null ==>
        fresh(animateDataBuffer) && forall k :: 0 <= k < animateDataBuffer.Length ==> IsInitialParticle(animateDataBuffer[k])
    {
      if scene.None? {
        return;
      }
      hasScene := true;
      // the buffer of the previous scene is dropped
      animateDataBuffer := null;

      var particleSystems, settings, offsets, total := ActivateSystems(scene.value);
      systems, particleSettings, particleBufferOffsets, totalBufferSize := particleSystems, settings, offsets, total;

      if totalBufferSize > 0 && settingsFile.Some? {
        LoadConfiguration(settingsFile.value);
      }
      if totalBufferSize > 0 {
        CreateAnimateDataBuffer();
      }
    }

    /** The loop of loadConfigurationFile once the file is parsed: every
        system the file names takes the file's settings, the others keep theirs. */
    method LoadConfiguration(file: map<string, ParticleSettings>)
      requires |particleSettings| == |systems|
      modifies this`particleSettings
      ensures |particleSettings| == |systems|
      ensures forall i :: 0 <= i < |systems| ==>
        particleSettings[i] == if systems[i].name in file then file[systems[i].name] else old(particleSettings[i])
    {
      for i := 0 to |systems|
        invariant |particleSettings| == |systems|
        invariant forall j :: 0 <= j < |systems| ==>
          particleSettings[j] == if j < i && systems[j].name in file then file[systems[j].name] else old(particleSettings[j])
      {
        if systems[i].name in file {
          particleSettings := particleSettings[i := file[systems[i].name]];
        }
      }
    }

    /** The buffer creation of setScene: a new buffer of the global size,
        filled with the initial data of every system. */
    method CreateAnimateDataBuffer()
      requires Valid() && hasScene
      modifies this`animateDataBuffer
      ensures Valid()
      ensures animateDataBuffer != null && fresh(animateDataBuffer)
      ensures forall k :: 0 <= k < animateDataBuffer.Length ==> IsInitialParticle(animateDataBuffer[k])
    {
      var initialData := GetInitialData(-1);
      animateDataBuffer := new ParticleAnimateData[totalBufferSize](k requires 0 <= k < |initialData| => initialData[k]);
    }

    /** dispatchParticlePass: one update dispatch per active system with the
        current reset flag and frame counter; then the reset flag is cleared
        and the frame counter advances. */
    method DispatchParticlePass()
      modifies this`dispatchLog, this`reset, this`frameCounter
      ensures dispatchLog == old(dispatchLog) + ActiveDispatches(systems, old(reset), old(frameCounter))
      ensures !reset && frameCounter == Inc(old(frameCounter))
    {
      for i := 0 to |systems|
        invariant reset == old(reset) && frameCounter == old(frameCounter)
        invariant dispatchLog == old(dispatchLog) + ActiveDispatches(systems[..i], reset, frameCounter)
      {
        assert systems[..i + 1][..i] == systems[..i];
        var ps := systems[i];
        if !ps.active {
          continue;
        }
        dispatchLog := dispatchLog + [SystemDispatch(reset, frameCounter, ps.particleBufferOffset, ps.numberParticles)];
      }
      assert systems[..|systems|] == systems;
      reset := false;
      frameCounter := Inc(frameCounter);
    }

    /** execute: nothing without a scene or without particle systems; a
        pending reinitialisation refills the buffer, if there is one, and
        re-arms the start-up simulation; then mSimulationSteps dispatches when
        simulating, else one. */
    method Execute()
      requires Valid()
      modifies this`reset, this`reinitializeBuffer, this`useSimulation, this`dispatchLog, this`frameCounter
      modifies animateDataBuffer
      ensures Valid()
      ensures !old(hasScene) || old(|systems|) == 0 ==> unchanged(this) && (animateDataBuffer != null ==> unchanged(animateDataBuffer))
      ensures old(hasScene) && old(|systems|) > 0 ==>
        var simulate := if old(reinitializeBuffer) then enableSimulateOnStartup else old(useSimulation);
        var reset0 := if old(reinitializeBuffer) then !enableSimulateOnStartup else old(reset);
        var count := if simulate then simulationSteps as nat else 1;
        !reinitializeBuffer && !useSimulation &&
        frameCounter == AddWrap(old(frameCounter), count) &&
        reset == (reset0 && count == 0) &&
        dispatchLog == old(dispatchLog) + Dispatches(systems, reset0, old(frameCounter), count)
      ensures old(reinitializeBuffer) && old(hasScene) && old(|systems|) > 0 && animateDataBuffer != null ==>
        forall k :: 0 <= k < animateDataBuffer.Length ==> IsInitialParticle(animateDataBuffer[k])
      ensures !old(reinitializeBuffer) && animateDataBuffer != null ==> unchanged(animateDataBuffer)
    {
      if !hasScene || |systems| == 0 {
        return;
      }

      if reinitializeBuffer {
        if animateDataBuffer != null {
          ReinitializeBuffer();
        } else {
          // no particles, so there is nothing to upload
          reset := !enableSimulateOnStartup;
          reinitializeBuffer := false;
          useSimulation := enableSimulateOnStartup;
        }
      }

      var dispatchCount: nat := if useSimulation then simulationSteps as nat else 1;
      DispatchPasses(dispatchCount);

      useSimulation := false;
    }

    /** The reinitialisation step of execute: upload fresh initial data into
        the existing buffer; the start-up simulation replaces the plain reset
        when it is enabled. */
    method ReinitializeBuffer()
      requires Valid() && hasScene && animateDataBuffer != null
      modifies this`reset, this`reinitializeBuffer, this`useSimulation, animateDataBuffer
      ensures forall k :: 0 <= k < animateDataBuffer.Length ==> IsInitialParticle(animateDataBuffer[k])
      ensures reset == !enableSimulateOnStartup && !reinitializeBuffer && useSimulation == enableSimulateOnStartup
    {
      var initialData := GetInitialData(-1);
      var buffer := animateDataBuffer;
      forall k | 0 <= k < buffer.Length {
        buffer[k] := initialData[k];
      }
      reset := !enableSimulateOnStartup;
      reinitializeBuffer := false;
      useSimulation := enableSimulateOnStartup;
    }

    /** The loop of execute that calls dispatchParticlePass count times. */
    method DispatchPasses(count: nat)
      modifies this`dispatchLog, this`reset, this`frameCounter
      ensures dispatchLog == old(dispatchLog) + Dispatches(systems, old(reset), old(frameCounter), count)
      ensures frameCounter == AddWrap(old(frameCounter), count)
      ensures reset == (old(reset) && count == 0)
    {
      AddWrapStep(frameCounter, 0);
      for i := 0 to count
        invariant dispatchLog == old(dispatchLog) + Dispatches(systems, old(reset), old(frameCounter), i)
        invariant frameCounter == AddWrap(old(frameCounter), i)
        invariant reset == (old(reset) && i == 0)
      {
        DispatchParticlePass();
        AddWrapStep(old(frameCounter), i);
      }
    }

    /** The simulated time step of execute divides the largest lifetime plus
        random lifetime of all systems (0 when there are none) by the step
        count; this is that maximum. */
    method MaxCombinedLifetime() returns (maxLifetime: real)
      ensures forall i :: 0 <= i < |particleSettings| ==>
        particleSettings[i].lifetime + particleSettings[i].randomLifetime <= maxLifetime
      ensures maxLifetime == 0.0 ||
        exists i :: 0 <= i < |particleSettings| && maxLifetime == particleSettings[i].lifetime + particleSettings[i].randomLifetime
      ensures maxLifetime >= 0.0
    {
      maxLifetime := 0.0;
      for i := 0 to |particleSettings|
        invariant maxLifetime >= 0.0
        invariant forall j :: 0 <= j < i ==> particleSettings[j].lifetime + particleSettings[j].randomLifetime <= maxLifetime
        invariant maxLifetime == 0.0 ||
          exists j :: 0 <= j < i && maxLifetime == particleSettings[j].lifetime + particleSettings[j].randomLifetime
      {
        var pSett := particleSettings[i];
        if pSett.lifetime + pSett.randomLifetime > maxLifetime {
          maxLifetime := pSett.lifetime + pSett.randomLifetime;
        }
      }
    }

    /** The "Reset All" button requests a reinitialisation; the request stays until execute serves it. */
    method PressResetAll(pressed: bool)
      modifies this`reinitializeBuffer
      ensures reinitializeBuffer == (old(reinitializeBuffer) || pressed)
    {
      reinitializeBuffer := reinitializeBuffer || pressed;
    }

    /** storeCurrentConfiguration: nothing without a scene or without
        particle systems; otherwise the name of the file written. */
    method StoreCurrentConfiguration() returns (fileName: Option<string>)
      ensures !hasScene || |systems| == 0 ==> fileName == None
      ensures hasScene && |systems| > 0 ==> fileName == Some(ConfigFileName(configurationName))
    {
      if !hasScene || |systems| == 0 {
        return None;
      }
      var name := configurationName;
      if name == [] {
        name := DefaultConfigurationName;
      }
      name := name + ConfigExtension;
      fileName := Some(name);
    }
  }

  /** One dispatch per system of the scene, in scene order, all with the
      same reset flag and frame counter. */
  function FullRound(scene: seq<ParticleSystem>, reset: bool, frame: u32): (r: seq<SystemDispatch>)
    ensures |r| == |scene|
    ensures forall i :: 0 <= i < |scene| ==>
      r[i] == SystemDispatch(reset, frame, scene[i].particleBufferOffset, scene[i].numberParticles)
  {
    seq(|scene|, i requires 0 <= i < |scene| =>
      SystemDispatch(reset, frame, scene[i].particleBufferOffset, scene[i].numberParticles))
  }

  /** Block b of d is a full round over the scene at frame counter b
      without the reset flag. */
  predicate RoundAt(d: seq<SystemDispatch>, scene: seq<ParticleSystem>, b: u32)
  {
    (b as int + 1) * |scene| <= |d| && d[b as int * |scene|..(b as int + 1) * |scene|] == FullRound(scene, false, b)
  }

  /** d holds a full round for every frame b below steps. */
  predicate SimulationRounds(d: seq<SystemDispatch>, scene: seq<ParticleSystem>, steps: nat)
  {
    forall b: u32 :: b as int < steps ==> RoundAt(d, scene, b)
  }

  /** Round b of a start-up simulation over activated systems dispatches
      every system in scene order at frame counter b. */
  lemma SimulatedRound(scene: seq<ParticleSystem>, systems: seq<ParticleSystem>, steps: nat, d: seq<SystemDispatch>, b: u32)
    requires |systems| == |scene| && forall i :: 0 <= i < |scene| ==> systems[i] == scene[i].(active := true)
    requires d == Dispatches(systems, false, 0, steps) && b as int < steps
    ensures RoundAt(d, scene, b)
  {
    AllActiveDispatches(systems, false, AddWrap(0, b as nat));
    DispatchesBlock(systems, false, 0, steps, b as nat);
    assert AddWrap(0, b as nat) == b;
    assert ActiveDispatches(systems, false, b) == FullRound(scene, false, b);
  }

  /** A start-up simulation of steps frames over activated systems is steps
      full rounds over the scene. */
  lemma StartupRounds(scene: seq<ParticleSystem>, systems: seq<ParticleSystem>, steps: nat, d: seq<SystemDispatch>)
    requires |systems| == |scene| && forall i :: 0 <= i < |scene| ==> systems[i] == scene[i].(active := true)
    requires d == Dispatches(systems, false, 0, steps)
    ensures SimulationRounds(d, scene, steps)
  {
    forall b: u32 | b as int < steps
      ensures RoundAt(d, scene, b)
    {
      SimulatedRound(scene, systems, steps, d, b);
    }
  }

  /** The first frame of a freshly created pass on a scene with particle
      systems runs the start-up simulation: 100 passes over every system. */
  method FirstFrameOfNewPass(scene: seq<ParticleSystem>) returns (frameCounter: u32, dispatches: seq<SystemDispatch>)
    requires |scene| > 0
    ensures frameCounter == 100
    ensures |dispatches| == 100 * |scene|
    ensures SimulationRounds(dispatches, scene, 100)
  {
    var pass := new ParticlePass();
    pass.SetScene(Some(scene), None);
    var systems, steps := pass.systems, pass.simulationSteps as nat;
    assert pass.useSimulation && !pass.reinitializeBuffer && !pass.reset && pass.frameCounter == 0;
    pass.Execute();
    frameCounter := pass.frameCounter;
    assert frameCounter == AddWrap(0, steps);
    assert steps == 100 && AddWrap(0, 100) == 100;
    dispatches := pass.dispatchLog;
    assert dispatches == Dispatches(systems, false, 0, steps);
    DispatchesLength(systems, false, 0, steps);
    AllActiveDispatches(systems, false, 0);
    StartupRounds(scene, systems, steps, dispatches);
  }

  /** A scene whose one system has no particles gets no animation buffer, yet
      "Reset All" still requests its reinitialisation: the state in which the
      source's execute uploads through a null buffer (ReinitializeBuffer's
      requires fails there). */
  method ResetAllWithoutParticles(name: string) returns (pass: ParticlePass)
    ensures fresh(pass)
    ensures pass.Valid() && pass.hasScene && |pass.systems| == 1
    ensures pass.reinitializeBuffer && pass.animateDataBuffer == null
    ensures !pass.reset && pass.frameCounter == 0
  {
    pass := new ParticlePass();
    var empty := ParticleSystem(name, 0, true, Zero3, 1.0, 0);
    assert TotalParticles([empty]) == 0 by {
      assert [empty][..0] == [];
    }
    pass.SetScene(Some([empty]), None);
    pass.PressResetAll(true);
  }
}
