/** Keyboard walking in the 3D campus viewer: a map of the four tracked
    movement keys, updated by key-down and key-up events, and the per-frame
    update that moves the player (or the camera) and pins its height. The
    rotated, normalised and scaled step that Three.js computes from the
    direction is a parameter of the frame update. */
module FirstPersonCamera {
  import Text

  /** Length of one frame's step, applied by the library. */
  const Speed: real := 0.15
  /** The height every moved target is put back to. */
  const EyeHeight: real := 2.0

  /** The keys the map tracks; every other key is ignored. */
  const TrackedKeys: set<string> := {"w", "a", "s", "d"}

  type KeyMap = map<string, bool>

  const InitialKeys: KeyMap := map["w" := false, "a" := false, "s" := false, "d" := false]

  predicate Tracks(m: KeyMap) {
    m.Keys == TrackedKeys
  }

  /** The handlers' update: the lower-cased key is set to `down` if the map
      has it, and nothing changes otherwise. */
  function SetKey(m: KeyMap, key: string, down: bool): (r: KeyMap)
    ensures r.Keys == m.Keys
    ensures Text.Lower(key) in m ==> r[Text.Lower(key)] == down
    ensures forall k :: k in m && k != Text.Lower(key) ==> r[k] == m[k]
  {
    var k := Text.Lower(key);
    if k in m then m[k := down] else m
  }

  /** `Number(b)` */
  function Bit(b: bool): int {
    if b then 1 else 0
  }

  /** One component of the direction, `Number(pos) - Number(neg)`: the
      front component is `s - w`, the side component `a - d`. */
  function Axis(m: KeyMap, pos: string, neg: string): (r: int)
    requires pos in m && neg in m && pos != neg
    ensures -1 <= r <= 1
    ensures r == 1 <==> m[pos] && !m[neg]
    ensures r == -1 <==> m[neg] && !m[pos]
  {
    Bit(m[pos]) - Bit(m[neg])
  }

  datatype Vec3 = Vec3(x: real, y: real, z: real)

  const Zero: Vec3 := Vec3(0.0, 0.0, 0.0)

  /** `subVectors(front, side)` before normalisation, as integers: x is the
      negated side component, z the front component. */
  function Direction(m: KeyMap): (r: (int, int))
    requires Tracks(m)
    ensures r == (0, 0) <==> m["a"] == m["d"] && m["w"] == m["s"]
  {
    (-Axis(m, "a", "d"), Axis(m, "s", "w"))
  }

  /** Pressing a tracked key and releasing it leaves the map as it was
      before, provided the key was up to begin with; an untracked key leaves
      the map untouched either way. */
  lemma DownThenUpRestores(m: KeyMap, key: string)
    requires Text.Lower(key) !in m || !m[Text.Lower(key)]
    ensures SetKey(SetKey(m, key, true), key, false) == m
  {
    var k := Text.Lower(key);
    if k in m {
      assert SetKey(SetKey(m, key, true), key, false) == m[k := true][k := false];
    }
  }

  /** A key differing only in case has the same effect: "W" is "w". */
  lemma CaseDoesNotMatter(m: KeyMap, key: string, down: bool)
    ensures SetKey(m, key, down) == SetKey(m, Text.Lower(key), down)
  {
    Text.LowerIdempotent(key);
  }

  /** Only a tracked key changes the map. */
  lemma UntrackedKeyIgnored(m: KeyMap, key: string, down: bool)
    requires Tracks(m) && Text.Lower(key) !in TrackedKeys
    ensures SetKey(m, key, down) == m
  {
  }

  class Object3D {
    var position: Vec3
    constructor (p: Vec3)
      ensures position == p
    {
      position := p;
    }
  }

  class Controls {
    var keys: KeyMap

    ghost predicate Valid()
      reads this
    {
      Tracks(keys)
    }

    constructor ()
      ensures Valid() && keys == InitialKeys
    {
      keys := InitialKeys;
    }

    method KeyDown(key: string)
      requires Valid()
      modifies this
      ensures Valid() && keys == SetKey(old(keys), key, true)
    {
      keys := SetKey(keys, key, true);
    }

    method KeyUp(key: string)
      requires Valid()
      modifies this
      ensures Valid() && keys == SetKey(old(keys), key, false)
    {
      keys := SetKey(keys, key, false);
    }

    /** The frame callback. Inactive, nothing moves. Active, the target is
        the player object when there is one, else the camera: it moves by
        `step` (the library's rotated step of length `Speed` for the current
        direction), or not at all when the direction is zero, since
        normalising the zero vector leaves it zero; then its height is set
        to `EyeHeight`. */
    method Frame(active: bool, player: Object3D?, camera: Object3D, step: Vec3)
      requires Valid()
      modifies player, camera
      ensures !active ==> camera.position == old(camera.position)
      ensures !active && player != null ==> player.position == old(player.position)
      ensures active ==>
        var target := if player != null then player else camera;
        var d := if Direction(keys) == (0, 0) then Zero else step;
        target.position == Vec3(old(target.position).x + d.x, EyeHeight, old(target.position).z + d.z)
      ensures active && player != null && player != camera ==> camera.position == old(camera.position)
    {
      if !active {
        return;
      }
      var d := if Direction(keys) == (0, 0) then Zero else step;
      var target := if player != null then player else camera;
      var p := target.position;
      target.position := Vec3(p.x + d.x, p.y + d.y, p.z + d.z);
      target.position := target.position.(y := EyeHeight);
    }
  }
}
