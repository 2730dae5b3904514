/** A loaded profile chain in the layer merge (crates/bitty-config/src/file.rs):
    the requested profile overrides its ancestors field by field, and the user
    file overrides them all. */
module ProfileLayers {
  import opened Wrappers
  import opened LayerMerge
  import CliLayer
  import ProfileChain

  /** A walk whose profiles all load. */
  ghost predicate Loaded(dir: ProfileChain.Dir, names: seq<string>) {
    forall i :: 0 <= i < |names| ==> ProfileChain.Readable(dir, names[i])
  }

  /** What the `k`-th profile along `extends` declares; `plans` reads the plan in
      a profile's body. */
  function PlanAt(plans: string -> Plan, dir: ProfileChain.Dir, names: seq<string>, k: nat): Plan
    requires Loaded(dir, names) && k < |names|
  {
    assert ProfileChain.Readable(dir, names[k]);
    plans(dir[names[k]].layer.body)
  }

  function ProfileSource(name: string): Source { Source(Profile, Some(name), None) }

  function LayerAt(plans: string -> Plan, dir: ProfileChain.Dir, names: seq<string>, k: nat): Layer
    requires Loaded(dir, names) && k < |names|
  {
    Layer(ProfileSource(names[k]), PlanAt(plans, dir, names, k))
  }

  /** The layers of a loaded walk, base first. */
  function ChainLayers(plans: string -> Plan, dir: ProfileChain.Dir, names: seq<string>): seq<Layer>
    requires Loaded(dir, names)
  {
    var n := |names|;
    seq(n, i requires 0 <= i < n && Loaded(dir, names) => LayerAt(plans, dir, names, n - 1 - i))
  }

  /** They are the loader's result, in its order. */
  lemma ChainLayersAreLoaded(plans: string -> Plan, dir: ProfileChain.Dir, names: seq<string>)
    requires Loaded(dir, names)
    ensures var loaded := ProfileChain.Reverse(ProfileChain.LayersOf(dir, names));
            && |ChainLayers(plans, dir, names)| == |loaded|
            && forall i :: 0 <= i < |loaded| ==> ChainLayers(plans, dir, names)[i].plan == plans(loaded[i].body)
  {
    var loaded := ProfileChain.Reverse(ProfileChain.LayersOf(dir, names));
    forall i | 0 <= i < |loaded| ensures ChainLayers(plans, dir, names)[i].plan == plans(loaded[i].body) {
      var k := |names| - 1 - i;
      assert ProfileChain.Readable(dir, names[k]);
      assert loaded[i] == ProfileChain.LayersOf(dir, names)[k] == dir[names[k]].layer;
      assert ChainLayers(plans, dir, names)[i] == LayerAt(plans, dir, names, k);
    }
  }

  /** The profile and file layers below the CLI. */
  function Lower(plans: string -> Plan, dir: ProfileChain.Dir, names: seq<string>, file: Option<Layer>): seq<Layer>
    requires Loaded(dir, names)
  {
    CliLayer.LowerLayers(file, ChainLayers(plans, dir, names))
  }

  lemma LowerAt(plans: string -> Plan, dir: ProfileChain.Dir, names: seq<string>, file: Option<Layer>, i: nat)
    requires Loaded(dir, names) && i < |Lower(plans, dir, names, file)|
    ensures i < |names| ==> Lower(plans, dir, names, file)[i] == LayerAt(plans, dir, names, |names| - 1 - i)
    ensures i >= |names| ==> i == |names| && file == Some(Lower(plans, dir, names, file)[i])
  {
  }

  /** `names[k]` is the first profile along `extends`, from the requested one on,
      that says anything about `f`. */
  ghost predicate FirstAlongExtends(plans: string -> Plan, dir: ProfileChain.Dir, names: seq<string>, f: Field, k: nat)
    requires Loaded(dir, names)
  {
    && k < |names| && Declares(PlanAt(plans, dir, names, k), f)
    && forall i :: 0 <= i < k ==> !Declares(PlanAt(plans, dir, names, i), f)
  }

  predicate FileSilent(file: Option<Layer>, f: Field) { file.Some? ==> !Declares(file.value.plan, f) }

  lemma FirstProfileOutranks(plans: string -> Plan, dir: ProfileChain.Dir, names: seq<string>, file: Option<Layer>,
                             f: Field, k: nat)
    requires Loaded(dir, names) && FileSilent(file, f) && FirstAlongExtends(plans, dir, names, f, k)
    ensures Wins(Lower(plans, dir, names, file), f, |names| - 1 - k)
    ensures Lower(plans, dir, names, file)[|names| - 1 - k] == LayerAt(plans, dir, names, k)
  {
    var lower := Lower(plans, dir, names, file);
    var w := |names| - 1 - k;
    LowerAt(plans, dir, names, file, w);
    forall j | 0 <= j < |lower| && j != w && Declares(lower[j].plan, f) ensures Outranks(lower[w], lower[j], j < w) {
      LowerAt(plans, dir, names, file, j);
    }
  }

  /** A field the user file leaves alone has the value and the source of the
      first profile along `extends` that declares it. */
  lemma RequestedProfileWins(checks: Checks, order: seq<Field>, plans: string -> Plan, dir: ProfileChain.Dir,
                             names: seq<string>, file: Option<Layer>, validate: bool, merged: Merged, f: Field, k: nat)
    requires Canonical(order) && Loaded(dir, names)
    requires MergeInOrder(checks, order, Lower(plans, dir, names, file), validate) == Ok(merged)
    requires FileSilent(file, f) && FirstAlongExtends(plans, dir, names, f, k)
    ensures f in merged.attribution && merged.attribution[f] == ProfileSource(names[k])
    ensures Get(merged.effective, f) == Said(PlanAt(plans, dir, names, k), f)
  {
    FirstProfileOutranks(plans, dir, names, file, f, k);
    WinnerInOrder(checks, order, Lower(plans, dir, names, file), validate, merged, f, |names| - 1 - k);
  }

  /** A field the user file declares is the user file's. */
  lemma UserFileWins(checks: Checks, order: seq<Field>, plans: string -> Plan, dir: ProfileChain.Dir,
                     names: seq<string>, file: Layer, validate: bool, merged: Merged, f: Field)
    requires Canonical(order) && Loaded(dir, names)
    requires MergeInOrder(checks, order, Lower(plans, dir, names, Some(file)), validate) == Ok(merged)
    requires file.source.kind == User && Declares(file.plan, f)
    ensures f in merged.attribution && merged.attribution[f] == file.source
    ensures Get(merged.effective, f) == Said(file.plan, f)
  {
    UserFileOutranks(plans, dir, names, file, f);
    WinnerInOrder(checks, order, Lower(plans, dir, names, Some(file)), validate, merged, f, |names|);
  }

  lemma UserFileOutranks(plans: string -> Plan, dir: ProfileChain.Dir, names: seq<string>, file: Layer, f: Field)
    requires Loaded(dir, names) && file.source.kind == User && Declares(file.plan, f)
    ensures Wins(Lower(plans, dir, names, Some(file)), f, |names|)
    ensures Lower(plans, dir, names, Some(file))[|names|] == file
  {
    var lower := Lower(plans, dir, names, Some(file));
    forall j | 0 <= j < |lower| && j != |names| ensures Outranks(lower[|names|], lower[j], j < |names|) {
      LowerAt(plans, dir, names, Some(file), j);
    }
  }

  /** A field neither the file nor any profile declares keeps its default. */
  lemma UndeclaredKeepsDefault(checks: Checks, order: seq<Field>, plans: string -> Plan, dir: ProfileChain.Dir,
                               names: seq<string>, file: Option<Layer>, validate: bool, merged: Merged, f: Field)
    requires Canonical(order) && Loaded(dir, names)
    requires MergeInOrder(checks, order, Lower(plans, dir, names, file), validate) == Ok(merged)
    requires FileSilent(file, f)
    requires forall i :: 0 <= i < |names| ==> !Declares(PlanAt(plans, dir, names, i), f)
    ensures f in merged.attribution && merged.attribution[f] == CORE_SOURCE
    ensures Get(merged.effective, f) == Get(checks.defaults, f)
  {
    var lower := Lower(plans, dir, names, file);
    forall j | 0 <= j < |lower| ensures !Declares(lower[j].plan, f) {
      LowerAt(plans, dir, names, file, j);
    }
    DefaultInOrder(checks, order, lower, validate, merged, f);
  }

  /** Every chain the loader accepts is such a walk. */
  lemma ChainIsLoaded(dir: ProfileChain.Dir, ancestors: seq<string>, start: string, names: seq<string>)
    requires ProfileChain.Follow(dir, ancestors, [], start) == Ok(names)
    ensures Loaded(dir, names) && names != [] && names[0] == start
  {
    ProfileChain.LoadsExactlyChains(dir, ancestors, start, names);
  }
}
