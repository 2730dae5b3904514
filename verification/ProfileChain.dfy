/** The profile `extends` chain loader (crates/bitty-config/src/file.rs): a
    bounded walk from a requested profile to its root, reversed. */
module ProfileChain {
  import opened Wrappers
  import opened Text
  import opened Ordering

  const MAX_PROFILE_CHAIN_LEN: nat := 16
  const MAX_PROFILE_NAME_LEN: nat := 64

  predicate NameChar(c: char) {
    '0' <= c <= '9' || 'a' <= c <= 'z' || 'A' <= c <= 'Z' || c == '_' || c == '-'
  }

  predicate AllNameChars(s: string) { forall i :: 0 <= i < |s| ==> NameChar(s[i]) }

  /** `validate_profile_name`: the trimmed name, when it cannot leave the profile
      directory. */
  function ProfileName(raw: string): Option<string> {
    var t := Trim(Rust, raw);
    if t != [] && ByteLen(t) <= MAX_PROFILE_NAME_LEN && AllNameChars(t) then Some(t) else None
  }

  datatype Layer = Layer(parent: Option<string>, body: string)

  /** What reading one existing profile file gives. */
  datatype File = Fails(reason: string) | Loads(layer: Layer)

  /** The profile directory, by profile name. */
  type Dir = map<string, File>

  datatype ChainError =
    | BadName(raw: string)
    | Cycle(chain: seq<string>)
    | TooLong
    | NotFound(name: string)
    | LoadFailed(name: string)
    | BadParent(raw: string)

  datatype Parent = Root | Next(name: string) | Invalid(raw: string)

  function ParentOf(layer: Layer): Parent {
    match layer.parent
    case None => Root
    case Some(raw) =>
      match ProfileName(raw)
      case Some(name) => Next(name)
      case None => Invalid(raw)
  }

  predicate Readable(dir: Dir, name: string) { name in dir && dir[name].Loads? }

  /** The walk from any point: `names` were loaded, `current` is next. */
  function Follow(dir: Dir, ancestors: seq<string>, names: seq<string>, current: string)
    : Result<seq<string>, ChainError>
    decreases MAX_PROFILE_CHAIN_LEN - |names|
  {
    if current in ancestors || current in names then Err(Cycle(ancestors + names + [current]))
    else if |names| >= MAX_PROFILE_CHAIN_LEN then Err(TooLong)
    else if names != [] && current !in dir then Err(NotFound(current))
    else if !Readable(dir, current) then Err(LoadFailed(current))
    else
      match ParentOf(dir[current].layer)
      case Root => Ok(names + [current])
      case Invalid(raw) => Err(BadParent(raw))
      case Next(parent) => Follow(dir, ancestors, names + [current], parent)
  }

  function LayersOf(dir: Dir, names: seq<string>): seq<Layer>
    requires forall i :: 0 <= i < |names| ==> Readable(dir, names[i])
  {
    seq(|names|, i requires 0 <= i < |names| && Readable(dir, names[i]) => dir[names[i]].layer)
  }

  function Reverse<T>(s: seq<T>): seq<T> {
    seq(|s|, i requires 0 <= i < |s| => s[|s| - 1 - i])
  }

  /** `load_profile_chain_in_dir_with_visited`. `filesRead` logs the profiles whose file was opened. */
  method LoadChain(name: string, dir: Dir, ancestors: seq<string>)
    returns (r: Result<seq<Layer>, ChainError>, filesRead: seq<string>)
    ensures match ProfileName(name)
            case None => r == Err(BadName(name)) && filesRead == []
            case Some(start) =>
              match Follow(dir, ancestors, [], start)
              case Err(e) => r == Err(e)
              case Ok(names) =>
                && (forall i :: 0 <= i < |names| ==> Readable(dir, names[i]))
                && r == Ok(Reverse(LayersOf(dir, names))) && filesRead == names
    ensures |filesRead| <= MAX_PROFILE_CHAIN_LEN && Distinct(filesRead)
    ensures forall x :: x in filesRead ==> x !in ancestors
  {
    filesRead := [];
    var start := ProfileName(name);
    if start == None {
      return Err(BadName(name)), filesRead;
    }
    var chain: seq<Layer> := [];
    var visited := ancestors;
    var current := start.value;
    while true
      invariant |chain| == |filesRead| <= MAX_PROFILE_CHAIN_LEN && Distinct(filesRead)
      invariant visited == ancestors + filesRead
      invariant forall x :: x in filesRead ==> x !in ancestors
      invariant forall i :: 0 <= i < |filesRead| ==> Readable(dir, filesRead[i])
      invariant chain == LayersOf(dir, filesRead)
      invariant Follow(dir, ancestors, [], start.value) == Follow(dir, ancestors, filesRead, current)
      decreases MAX_PROFILE_CHAIN_LEN - |filesRead|
    {
      if current in visited {
        visited := visited + [current];
        return Err(Cycle(visited)), filesRead;
      }
      if |chain| >= MAX_PROFILE_CHAIN_LEN {
        return Err(TooLong), filesRead;
      }
      visited := visited + [current];
      var isParentHop := chain != [];
      if isParentHop && current !in dir {
        return Err(NotFound(current)), filesRead;
      }
      if !Readable(dir, current) {
        return Err(LoadFailed(current)), filesRead + [current];
      }
      filesRead := filesRead + [current];
      var loaded := dir[current].layer;
      var parent := ParentOf(loaded);
      if parent.Invalid? {
        return Err(BadParent(parent.raw)), filesRead;
      }
      chain := chain + [loaded];
      assert chain == LayersOf(dir, filesRead);
      if parent.Root? {
        break;
      }
      current := parent.name;
    }
    chain := Reverse(chain);
    return Ok(chain), filesRead;
  }

  // ---------------------------------------------------------------- what the walk accepts

  /** A walk of loads from `start`, each parent next, no name twice and no
      ancestor; `next` is the name it would load next. */
  ghost predicate IsPath(dir: Dir, ancestors: seq<string>, start: string, names: seq<string>, next: string) {
    && |names| <= MAX_PROFILE_CHAIN_LEN && Distinct(names)
    && (forall i :: 0 <= i < |names| ==> names[i] !in ancestors && Readable(dir, names[i]))
    && (forall i, j :: 0 <= i < j < |names| && j == i + 1 ==> ParentOf(dir[names[i]].layer) == Next(names[j]))
    && (if names == [] then next == start
        else names[0] == start && ParentOf(dir[names[|names| - 1]].layer) == Next(next))
  }

  /** A complete chain: a walk within the bound that ends at a parentless profile. */
  ghost predicate IsChain(dir: Dir, ancestors: seq<string>, start: string, names: seq<string>) {
    && 0 < |names| <= MAX_PROFILE_CHAIN_LEN && Distinct(names) && names[0] == start
    && (forall i :: 0 <= i < |names| ==> names[i] !in ancestors && Readable(dir, names[i]))
    && (forall i, j :: 0 <= i < j < |names| && j == i + 1 ==> ParentOf(dir[names[i]].layer) == Next(names[j]))
    && ParentOf(dir[names[|names| - 1]].layer) == Root
  }

  /** Walking along a path comes to the same end as walking from its start. */
  lemma {:induction false} FollowAlong(dir: Dir, ancestors: seq<string>, start: string, names: seq<string>,
                                       next: string)
    requires IsPath(dir, ancestors, start, names, next)
    ensures Follow(dir, ancestors, [], start) == Follow(dir, ancestors, names, next)
    decreases |names|
  {
    if names == [] {
    } else {
      var n := |names| - 1;
      var init, last := names[..n], names[n];
      assert IsPath(dir, ancestors, start, init, last);
      FollowAlong(dir, ancestors, start, init, last);
      assert init + [last] == names;
      assert last !in init;
    }
  }

  /** Extending a path by a fresh, readable name with a valid parent. */
  lemma PathGrows(dir: Dir, ancestors: seq<string>, start: string, names: seq<string>, current: string, parent: string)
    requires IsPath(dir, ancestors, start, names, current) && |names| < MAX_PROFILE_CHAIN_LEN
    requires current !in ancestors && current !in names && Readable(dir, current)
    requires ParentOf(dir[current].layer) == Next(parent)
    ensures IsPath(dir, ancestors, start, names + [current], parent)
  {
  }

  lemma ChainCloses(dir: Dir, ancestors: seq<string>, start: string, names: seq<string>, current: string)
    requires IsPath(dir, ancestors, start, names, current) && |names| < MAX_PROFILE_CHAIN_LEN
    requires current !in ancestors && current !in names && Readable(dir, current)
    requires ParentOf(dir[current].layer) == Root
    ensures IsChain(dir, ancestors, start, names + [current])
  {
  }

  /** A walk that may still load a profile, and is about to load `next` for the
      first time. */
  ghost predicate IsHop(dir: Dir, ancestors: seq<string>, start: string, names: seq<string>, next: string) {
    && IsPath(dir, ancestors, start, names, next) && |names| < MAX_PROFILE_CHAIN_LEN
    && next !in ancestors && next !in names
  }

  /** How a walk can end, with the path that led there. */
  ghost predicate Ends(dir: Dir, ancestors: seq<string>, start: string, r: Result<seq<string>, ChainError>,
                 names: seq<string>, next: string) {
    match r
    case Ok(chain) => IsChain(dir, ancestors, start, chain)
    case Err(Cycle(c)) =>
      IsPath(dir, ancestors, start, names, next) && (next in ancestors || next in names)
      && c == ancestors + names + [next]
    case Err(TooLong) =>
      IsPath(dir, ancestors, start, names, next) && |names| == MAX_PROFILE_CHAIN_LEN
      && next !in ancestors && next !in names
    case Err(NotFound(x)) => x == next && IsHop(dir, ancestors, start, names, next) && names != [] && next !in dir
    case Err(LoadFailed(x)) =>
      x == next && IsHop(dir, ancestors, start, names, next) && (if next in dir then dir[next].Fails? else names == [])
    case Err(BadParent(raw)) =>
      IsHop(dir, ancestors, start, names, next) && Readable(dir, next) && ParentOf(dir[next].layer) == Invalid(raw)
    case Err(BadName(_)) => false
  }

  lemma {:induction false} FollowEnds(dir: Dir, ancestors: seq<string>, start: string, names: seq<string>,
                                      current: string)
    returns (path: seq<string>, next: string)
    requires IsPath(dir, ancestors, start, names, current)
    ensures Ends(dir, ancestors, start, Follow(dir, ancestors, names, current), path, next)
    decreases MAX_PROFILE_CHAIN_LEN - |names|
  {
    path, next := names, current;
    if current !in ancestors && current !in names && |names| < MAX_PROFILE_CHAIN_LEN && Readable(dir, current) {
      match ParentOf(dir[current].layer)
      case Root => ChainCloses(dir, ancestors, start, names, current);
      case Invalid(_) =>
      case Next(parent) =>
        PathGrows(dir, ancestors, start, names, current, parent);
        path, next := FollowEnds(dir, ancestors, start, names + [current], parent);
    }
  }

  lemma ChainIsFollowed(dir: Dir, ancestors: seq<string>, start: string, names: seq<string>)
    requires IsChain(dir, ancestors, start, names)
    ensures Follow(dir, ancestors, [], start) == Ok(names)
  {
    var n := |names| - 1;
    var init, last := names[..n], names[n];
    assert IsPath(dir, ancestors, start, init, last);
    FollowAlong(dir, ancestors, start, init, last);
    assert init + [last] == names;
    assert last !in init;
  }

  /** The loader succeeds exactly when following `extends` reaches a parentless
      profile within the bound, with no name repeated and no ancestor; the walk
      it returns is the only such chain. */
  lemma LoadsExactlyChains(dir: Dir, ancestors: seq<string>, start: string, names: seq<string>)
    ensures Follow(dir, ancestors, [], start) == Ok(names) <==> IsChain(dir, ancestors, start, names)
  {
    if Follow(dir, ancestors, [], start) == Ok(names) {
      var _, _ := FollowEnds(dir, ancestors, start, [], start);
    }
    if IsChain(dir, ancestors, start, names) {
      ChainIsFollowed(dir, ancestors, start, names);
    }
  }

  /** A revisit within the bound is reported as a cycle, naming the walk, even
      when the walk has used up the bound. */
  lemma RevisitIsCycle(dir: Dir, ancestors: seq<string>, start: string, names: seq<string>, next: string)
    requires IsPath(dir, ancestors, start, names, next) && (next in ancestors || next in names)
    ensures Follow(dir, ancestors, [], start) == Err(Cycle(ancestors + names + [next]))
  {
    FollowAlong(dir, ancestors, start, names, next);
  }

  ghost predicate IsFullWalk(dir: Dir, ancestors: seq<string>, start: string, names: seq<string>, next: string) {
    && IsPath(dir, ancestors, start, names, next) && |names| == MAX_PROFILE_CHAIN_LEN
    && next !in ancestors && next !in names
  }

  /** Only a walk of sixteen loads that still has a fresh parent is too long. */
  lemma TooLongExactly(dir: Dir, ancestors: seq<string>, start: string)
    ensures Follow(dir, ancestors, [], start) == Err(TooLong) <==>
              (exists names, next :: IsFullWalk(dir, ancestors, start, names, next))
  {
    if Follow(dir, ancestors, [], start) == Err(TooLong) {
      var names, next := FollowEnds(dir, ancestors, start, [], start);
      assert IsFullWalk(dir, ancestors, start, names, next);
    }
    if names, next :| IsFullWalk(dir, ancestors, start, names, next) {
      FollowAlong(dir, ancestors, start, names, next);
    }
  }

  /** The loader ends a walk in the one way the walk can end: each refusal is
      given exactly in its own case. */
  lemma EndsExactly(dir: Dir, ancestors: seq<string>, start: string, r: Result<seq<string>, ChainError>)
    ensures Follow(dir, ancestors, [], start) == r <==>
              exists names, next :: Ends(dir, ancestors, start, r, names, next)
  {
    if Follow(dir, ancestors, [], start) == r {
      var names, next := FollowEnds(dir, ancestors, start, [], start);
      assert Ends(dir, ancestors, start, r, names, next);
    }
    if names, next :| Ends(dir, ancestors, start, r, names, next) {
      if r.Ok? {
        ChainIsFollowed(dir, ancestors, start, r.value);
      } else {
        FollowAlong(dir, ancestors, start, names, next);
      }
    }
  }

  /** A missing parent is not found, whatever ails the rest; a missing first
      profile and a file that does not load are load failures. */
  lemma NotFoundExactly(dir: Dir, ancestors: seq<string>, start: string, name: string)
    ensures Follow(dir, ancestors, [], start) == Err(NotFound(name)) <==>
              name !in dir && exists names :: names != [] && IsHop(dir, ancestors, start, names, name)
    ensures Follow(dir, ancestors, [], start) == Err(LoadFailed(name)) <==>
              if name in dir then dir[name].Fails? && exists names :: IsHop(dir, ancestors, start, names, name)
              else name == start && name !in ancestors
  {
    EndsExactly(dir, ancestors, start, Err(NotFound(name)));
    EndsExactly(dir, ancestors, start, Err(LoadFailed(name)));
    if name !in dir && exists names :: names != [] && IsHop(dir, ancestors, start, names, name) {
      var names :| names != [] && IsHop(dir, ancestors, start, names, name);
      assert Ends(dir, ancestors, start, Err(NotFound(name)), names, name);
    }
    if name in dir && dir[name].Fails? && exists names :: IsHop(dir, ancestors, start, names, name) {
      var names :| IsHop(dir, ancestors, start, names, name);
      assert Ends(dir, ancestors, start, Err(LoadFailed(name)), names, name);
    }
    if name !in dir && name == start && name !in ancestors {
      assert Ends(dir, ancestors, start, Err(LoadFailed(name)), [], name);
    }
  }

  /** A cycle report is honest: its last name already stands in the walk or among
      the ancestors it names. */
  lemma CycleReportIsHonest(dir: Dir, ancestors: seq<string>, start: string, c: seq<string>)
    returns (names: seq<string>, next: string)
    requires Follow(dir, ancestors, [], start) == Err(Cycle(c))
    ensures IsPath(dir, ancestors, start, names, next) && c == ancestors + names + [next]
    ensures next in ancestors || next in names
  {
    names, next := FollowEnds(dir, ancestors, start, [], start);
  }

  /** In the returned order the root comes first, each link right after its
      parent, and the requested profile last. */
  lemma ChainIsBaseFirst(dir: Dir, ancestors: seq<string>, start: string, names: seq<string>)
    requires IsChain(dir, ancestors, start, names)
    ensures var chain, order := Reverse(LayersOf(dir, names)), Reverse(names);
            && |chain| == |order| == |names| && order[|order| - 1] == start
            && ParentOf(chain[0]) == Root
            && (forall i :: 0 <= i < |chain| ==> chain[i] == dir[order[i]].layer)
            && (forall i, j :: 0 <= i < j < |chain| && j == i + 1 ==> ParentOf(chain[j]) == Next(order[i]))
  {
    var chain, order := Reverse(LayersOf(dir, names)), Reverse(names);
    var n := |names|;
    forall i, j | 0 <= i < j < n && j == i + 1 ensures ParentOf(chain[j]) == Next(order[i]) {
      assert order[i] == names[n - 1 - i] && chain[j] == dir[names[n - 1 - j]].layer;
    }
  }

  /** A name that passes validation stays inside the directory and validates to
      itself. */
  lemma ValidNamesAreStable(raw: string)
    requires ProfileName(raw).Some?
    ensures ProfileName(ProfileName(raw).value) == ProfileName(raw)
    ensures Lacks(ProfileName(raw).value, '/') && Lacks(ProfileName(raw).value, '.')
  {
    TrimIdempotent(Rust, raw);
  }

  /** `raw` names the profile `name`: a short word of letters, digits, '_' and '-'
      among blanks. */
  ghost predicate NamesProfile(raw: string, name: string) {
    && name != [] && ByteLen(name) <= 64
    && (forall c :: c in name ==> 'a' <= c <= 'z' || 'A' <= c <= 'Z' || '0' <= c <= '9' || c in "_-")
    && exists pre, post :: AllSpace(Rust, pre) && AllSpace(Rust, post) && raw == pre + name + post
  }

  lemma ProfileNameExactly(raw: string, name: string)
    ensures ProfileName(raw) == Some(name) <==> NamesProfile(raw, name)
  {
    if ProfileName(raw) == Some(name) {
      var pre, post := TrimShape(Rust, raw);
      forall c | c in name ensures NameChar(c) {
      }
    }
    if NamesProfile(raw, name) {
      var pre, post :| AllSpace(Rust, pre) && AllSpace(Rust, post) && raw == pre + name + post;
      forall i | 0 <= i < |name| ensures NameChar(name[i]) {
        assert name[i] in name;
      }
      TrimUnique(Rust, pre, name, post);
    }
  }

  /** A layer goes on to the profile its `extends` names, ends the chain without
      one, and is invalid when it names none. */
  lemma ParentExactly(layer: Layer)
    ensures ParentOf(layer) == Root <==> layer.parent.None?
    ensures forall name :: ParentOf(layer) == Next(name) <==>
              layer.parent.Some? && NamesProfile(layer.parent.value, name)
    ensures forall raw :: ParentOf(layer) == Invalid(raw) <==>
              layer.parent == Some(raw) && forall name :: !NamesProfile(raw, name)
  {
    if layer.parent.Some? {
      forall name ensures ProfileName(layer.parent.value) == Some(name) <==> NamesProfile(layer.parent.value, name) {
        ProfileNameExactly(layer.parent.value, name);
      }
    }
  }
}
