/** `FileReader::loadLevel`: a level file is a JSON object with one member
    per game object. Each object gets a spatial component, one bounder per
    explicit capsule, sphere and box collider, a bounder fitted to its mesh
    when it has no explicit collider and allows one, and a render component
    when it names a mesh file. The JSON parser, the mesh fitting and the
    component constructors are not part of this model: the parsed document
    is an input, and each object's result is the list of components it
    receives. */
module FileReader {
  import opened Vectors
  import CollisionSystem

  // Paths -----------------------------------------------------------------

  predicate IsSeparator(c: char)
  {
    c == '/' || c == '\\'
  }

  /** `find_last_of("/\\")`: the position of the last separator, or -1 for
      `npos` (which the source then increments to 0). */
  function LastSeparator(path: string): (i: int)
    ensures -1 <= i < |path|
    ensures i >= 0 ==> IsSeparator(path[i])
  {
    if path == [] then -1
    else if IsSeparator(path[|path| - 1]) then |path| - 1
    else LastSeparator(path[..|path| - 1])
  }

  /** No separator follows the one LastSeparator finds. */
  lemma {:induction false} LastSeparatorIsLast(path: string, j: int)
    requires LastSeparator(path) < j < |path|
    ensures !IsSeparator(path[j])
    decreases |path|
  {
    var prefix := path[..|path| - 1];
    if j < |path| - 1 {
      LastSeparatorIsLast(prefix, j);
      assert prefix[j] == path[j];
    }
  }

  /** `path.substr(path.find_last_of("/\\") + 1)`: the file name. */
  function Basename(path: string): (r: string)
  {
    path[LastSeparator(path) + 1..]
  }

  /** The file name is the longest suffix without a separator: it holds
      none, it is the whole path when the path holds none, and otherwise
      it follows a separator. */
  lemma BasenameIsLastPart(path: string)
    ensures forall j :: 0 <= j < |Basename(path)| ==> !IsSeparator(Basename(path)[j])
    ensures (forall j :: 0 <= j < |path| ==> !IsSeparator(path[j])) ==> Basename(path) == path
    ensures Basename(path) != path ==>
      exists k :: 0 <= k < |path| && IsSeparator(path[k]) && path == path[..k + 1] + Basename(path)
  {
    var i := LastSeparator(path);
    forall j | 0 <= j < |Basename(path)|
      ensures !IsSeparator(Basename(path)[j])
    {
      LastSeparatorIsLast(path, i + 1 + j);
    }
    if i >= 0 {
      assert path == path[..i + 1] + Basename(path);
    }
  }

  /** Taking the file name twice changes nothing. */
  lemma {:induction false} BasenameIdempotent(path: string)
    ensures Basename(Basename(path)) == Basename(path)
  {
    BasenameIsLastPart(path);
    NoSeparatorFound(Basename(path));
  }

  /** A string without separators has no last separator. */
  lemma {:induction false} NoSeparatorFound(s: string)
    requires forall j :: 0 <= j < |s| ==> !IsSeparator(s[j])
    ensures LastSeparator(s) == -1
  {
    if s != [] {
      NoSeparatorFound(s[..|s| - 1]);
    }
  }

  // Documents -------------------------------------------------------------

  /** A JSON object member. */
  datatype Member<T> = Member(name: string, value: T)

  /** The position of the first member with the name, or the length when
      there is none (`FindMember`). */
  function FirstWith<T>(members: seq<Member<T>>, name: string): (r: nat)
    ensures r <= |members|
    ensures r < |members| ==> members[r].name == name
  {
    if members == [] then 0
    else if members[0].name == name then 0
    else 1 + FirstWith(members[1..], name)
  }

  /** `object[name]` for the name of member k, as the loops over an
      object's members do it: the value of the first member carrying that
      name, which is member k itself or an earlier one. */
  function Get<T>(members: seq<Member<T>>, k: nat): (v: T)
    requires k < |members|
    ensures FirstWith(members, members[k].name) <= k
  {
    FirstWithBound(members, members[k].name, k);
    members[FirstWith(members, members[k].name)].value
  }

  /** No member before the one FirstWith finds carries the name. */
  lemma {:induction false} FirstWithBound<T>(members: seq<Member<T>>, name: string, k: nat)
    requires k < |members| && members[k].name == name
    ensures FirstWith(members, name) <= k
    decreases k
  {
    if k > 0 && members[0].name != name {
      FirstWithBound(members[1..], name, k - 1);
    }
  }

  predicate DistinctNames<T>(members: seq<Member<T>>)
  {
    forall j, k :: 0 <= j < k < |members| ==> members[j].name != members[k].name
  }

  datatype CapsuleJson = CapsuleJson(center: Vec3, radius: real, height: real)
  datatype SphereJson = SphereJson(center: Vec3, radius: real)
  datatype BoxJson = BoxJson(min: Vec3, max: Vec3)

  /** The `transform` member of an object; the position, scale, rotation
      and tiling entries feed constructors outside this model. */
  datatype TransformJson = TransformJson(objName: string, objTexture: string, isToon: bool, allowColliders: bool)

  datatype ObjectJson = ObjectJson(transform: TransformJson, capsules: seq<Member<CapsuleJson>>,
                                   spheres: seq<Member<SphereJson>>, boxes: seq<Member<BoxJson>>)

  /** The parser's outcome. */
  datatype Document = Parsed(objects: seq<Member<ObjectJson>>) | ParseError

  /** The shapes bounders are made from. */
  datatype Bounding = Capsule(center: Vec3, radius: real, height: real) | Sphere(center: Vec3, radius: real)
                    | AABox(min: Vec3, max: Vec3)

  /** A component added to a game object. */
  datatype Added =
    | Spatial
    | Bounder(weight: nat, shape: Bounding)
    | MeshBounder(weight: nat, meshName: string)
    | Render(meshName: string, textureName: string, isToon: bool)

  /** A capsule's cylinder height: the full height less both caps, never
      negative. */
  function CylinderHeight(height: real, radius: real): (h: real)
    ensures h >= 0.0 && h >= height - 2.0 * radius
    ensures h == 0.0 || h == height - 2.0 * radius
  {
    if height - 2.0 * radius > 0.0 then height - 2.0 * radius else 0.0
  }

  function CapsuleBounder(c: CapsuleJson): Added
  {
    Bounder(CollisionSystem.UIntMax, Capsule(c.center, c.radius, CylinderHeight(c.height, c.radius)))
  }

  function SphereBounder(s: SphereJson): Added
  {
    Bounder(CollisionSystem.UIntMax, Sphere(s.center, s.radius))
  }

  function BoxBounder(b: BoxJson): Added
  {
    Bounder(CollisionSystem.UIntMax, AABox(b.min, b.max))
  }

  /** `f(object[name])` for the names of the first n members, in member
      order: the shape of every loop over an object's members. */
  function ByName<T, U>(members: seq<Member<T>>, f: T -> U, n: nat): (r: seq<U>)
    requires n <= |members|
    ensures |r| == n
    ensures forall k :: 0 <= k < n ==> r[k] == f(Get(members, k))
    decreases n
  {
    if n == 0 then [] else ByName(members, f, n - 1) + [f(Get(members, n - 1))]
  }

  /** One bounder per member. */
  function Bounders<T>(members: seq<Member<T>>, make: T -> Added): (r: seq<Added>)
    ensures |r| == |members|
    ensures forall k :: 0 <= k < |members| ==> r[k] == make(Get(members, k))
  {
    ByName(members, make, |members|)
  }

  /** With distinct member names, `object[name]` is the member itself, so
      the bounders are built from the members' own values, in order; a
      repeated name instead repeats the first value under it. */
  lemma GetOfDistinct<T>(members: seq<Member<T>>, k: nat)
    requires k < |members|
    ensures DistinctNames(members) ==> Get(members, k) == members[k].value
    ensures Get(members, k) == members[FirstWith(members, members[k].name)].value
    ensures forall j :: 0 <= j < k && members[j].name == members[k].name ==> FirstWith(members, members[k].name) <= j
  {
    forall j | 0 <= j < k && members[j].name == members[k].name
      ensures FirstWith(members, members[k].name) <= j
    {
      FirstWithBound(members, members[k].name, j);
    }
  }

  /** The explicit colliders of an object: capsules, then spheres, then
      boxes, one immovable bounder per member; capsule heights are never
      negative. */
  function Explicit(obj: ObjectJson): (r: seq<Added>)
    ensures |r| == |obj.capsules| + |obj.spheres| + |obj.boxes|
    ensures forall k :: 0 <= k < |r| ==> r[k].Bounder? && r[k].weight == CollisionSystem.UIntMax
    ensures forall k :: 0 <= k < |r| && r[k].shape.Capsule? ==> r[k].shape.height >= 0.0
  {
    Bounders(obj.capsules, CapsuleBounder) + Bounders(obj.spheres, SphereBounder) + Bounders(obj.boxes, BoxBounder)
  }

  /** The mesh bounder an object gets when it has no explicit collider and
      allows colliders. */
  function MeshCollider(obj: ObjectJson): seq<Added>
  {
    if |Explicit(obj)| == 0 && obj.transform.allowColliders
    then [MeshBounder(CollisionSystem.UIntMax, Basename(obj.transform.objName))] else []
  }

  /** The render component an object gets when it names a mesh file. */
  function RenderPart(obj: ObjectJson): seq<Added>
  {
    var filePath := Basename(obj.transform.objName);
    if filePath != "" then [Render(filePath, Basename(obj.transform.objTexture), obj.transform.isToon)] else []
  }

  /** The components one level object receives, in order. */
  function ObjectComponents(obj: ObjectJson): (r: seq<Added>)
  {
    [Spatial] + Explicit(obj) + MeshCollider(obj) + RenderPart(obj)
  }

  /** An object's components are its spatial component, its explicit
      colliders, then the mesh bounder and the render component when it
      gets them. */
  lemma ObjectLayout(obj: ObjectJson)
    ensures |ObjectComponents(obj)| == 1 + |Explicit(obj)| + |MeshCollider(obj)| + |RenderPart(obj)|
    ensures ObjectComponents(obj)[0] == Spatial
    ensures ObjectComponents(obj)[1..|Explicit(obj)| + 1] == Explicit(obj)
    ensures ObjectComponents(obj)[|Explicit(obj)| + 1..] == MeshCollider(obj) + RenderPart(obj)
  {
    var e, m, p := Explicit(obj), MeshCollider(obj), RenderPart(obj);
    assert ObjectComponents(obj) == [Spatial] + e + (m + p);
  }

  /** In a list made of a spatial component, bounders, mesh bounders and
      render components, in that order, a mesh bounder occurs exactly
      when the mesh part is non-empty, and every render component comes
      from the render part. */
  lemma LayoutKinds(e: seq<Added>, m: seq<Added>, p: seq<Added>)
    requires forall k :: 0 <= k < |e| ==> e[k].Bounder?
    requires forall k :: 0 <= k < |m| ==> m[k].MeshBounder?
    requires forall k :: 0 <= k < |p| ==> p[k].Render?
    ensures var r := [Spatial] + e + m + p;
      (exists k :: 0 <= k < |r| && r[k].MeshBounder?) <==> m != []
    ensures var r := [Spatial] + e + m + p;
      forall k :: 0 <= k < |r| && r[k].Render? ==> k >= |r| - |p| && r[k] == p[k - (|r| - |p|)]
  {
    var r := [Spatial] + e + m + p;
    if m != [] {
      assert r[1 + |e|] == m[0];
    }
    forall k | 0 <= k < |r|
      ensures (r[k].MeshBounder? ==> 1 + |e| <= k < 1 + |e| + |m|) && (r[k].Render? ==> k >= |r| - |p|)
    {
      if 1 <= k < 1 + |e| {
        assert r[k] == e[k - 1];
      } else if 1 + |e| <= k < 1 + |e| + |m| {
        assert r[k] == m[k - 1 - |e|];
      }
    }
  }

  /** An object gets a mesh bounder exactly when it has no explicit
      collider and allows colliders. */
  lemma MeshBounderIff(obj: ObjectJson)
    ensures (exists k :: 0 <= k < |ObjectComponents(obj)| && ObjectComponents(obj)[k].MeshBounder?) <==>
      |obj.capsules| + |obj.spheres| + |obj.boxes| == 0 && obj.transform.allowColliders
  {
    var e, m, p := Explicit(obj), MeshCollider(obj), RenderPart(obj);
    LayoutKinds(e, m, p);
    MeshColliderWhen(obj);
    assert ObjectComponents(obj) == [Spatial] + e + m + p;
  }

  /** The mesh bounder part is there exactly when there is no explicit
      collider and colliders are allowed. */
  lemma MeshColliderWhen(obj: ObjectJson)
    ensures MeshCollider(obj) != [] <==> |obj.capsules| + |obj.spheres| + |obj.boxes| == 0 && obj.transform.allowColliders
  {
    assert |Explicit(obj)| == |obj.capsules| + |obj.spheres| + |obj.boxes|;
  }

  /** An object gets a render component exactly when its file name is not
      empty; it comes last and names that file and the texture's file
      name. */
  lemma RenderIff(obj: ObjectJson)
    ensures (exists k :: 0 <= k < |ObjectComponents(obj)| && ObjectComponents(obj)[k].Render?) <==>
      Basename(obj.transform.objName) != ""
    ensures forall k :: 0 <= k < |ObjectComponents(obj)| && ObjectComponents(obj)[k].Render? ==>
      k == |ObjectComponents(obj)| - 1 &&
      ObjectComponents(obj)[k].meshName == Basename(obj.transform.objName) &&
      ObjectComponents(obj)[k].textureName == Basename(obj.transform.objTexture)
  {
    var e, m, p := Explicit(obj), MeshCollider(obj), RenderPart(obj);
    LayoutKinds(e, m, p);
    var r := [Spatial] + e + m + p;
    assert ObjectComponents(obj) == r;
    if p != [] {
      assert r[|r| - 1] == p[0];
    }
  }

  // Loops -----------------------------------------------------------------

  /** The loop of `addCapsuleColliderComponents` (and, with another maker,
      of the sphere and box adders): one bounder per member pushed onto
      the object's components, counting them. */
  method AddColliderComponents<T>(components0: seq<Added>, members: seq<Member<T>>, make: T -> Added)
    returns (numberOfColliders: nat, components: seq<Added>)
    ensures numberOfColliders == |members|
    ensures components == components0 + Bounders(members, make)
  {
    numberOfColliders := 0;
    components := components0;
    var i := 0;
    while i < |members|
      invariant i <= |members| && numberOfColliders == i
      invariant components == components0 + ByName(members, make, i)
    {
      components := components + [make(Get(members, i))];
      numberOfColliders := numberOfColliders + 1;
      i := i + 1;
    }
  }

  /** The body of `loadLevel`'s loop for one object. */
  method LoadObject(obj: ObjectJson) returns (components: seq<Added>)
    ensures components == ObjectComponents(obj)
  {
    components := [Spatial];
    var numberOfColliders := 0;
    var filePath := Basename(obj.transform.objName);
    var n;
    n, components := AddColliderComponents(components, obj.capsules, CapsuleBounder);
    numberOfColliders := numberOfColliders + n;
    n, components := AddColliderComponents(components, obj.spheres, SphereBounder);
    numberOfColliders := numberOfColliders + n;
    n, components := AddColliderComponents(components, obj.boxes, BoxBounder);
    numberOfColliders := numberOfColliders + n;
    assert components == [Spatial] + Explicit(obj);
    if numberOfColliders == 0 && obj.transform.allowColliders {
      components := components + [MeshBounder(CollisionSystem.UIntMax, filePath)];
    }
    assert components == [Spatial] + Explicit(obj) + MeshCollider(obj);
    if filePath != "" {
      components := components + [Render(filePath, Basename(obj.transform.objTexture), obj.transform.isToon)];
    }
  }

  /** The components of each game object a parsed level creates, one per
      document member, each built from `document[name]` for that member's
      name. */
  function LevelObjects(members: seq<Member<ObjectJson>>): (r: seq<seq<Added>>)
    ensures |r| == |members|
  {
    ByName(members, ObjectComponents, |members|)
  }

  /** Object k of a level is built from member k itself when the member
      names are distinct, and from the first member of its name otherwise. */
  lemma LevelObjectsOfMembers(members: seq<Member<ObjectJson>>, k: nat)
    requires k < |members|
    ensures FirstWith(members, members[k].name) <= k
    ensures LevelObjects(members)[k] == ObjectComponents(members[FirstWith(members, members[k].name)].value)
    ensures DistinctNames(members) ==> LevelObjects(members)[k] == ObjectComponents(members[k].value)
  {
    GetOfDistinct(members, k);
  }

  /** The loop of `loadLevel` over the document's members. */
  method LoadObjects(members: seq<Member<ObjectJson>>) returns (objects: seq<seq<Added>>)
    ensures objects == LevelObjects(members)
  {
    objects := [];
    var i := 0;
    while i < |members|
      invariant i <= |members|
      invariant objects == ByName(members, ObjectComponents, i)
    {
      var components := LoadObject(Get(members, i));
      assert ByName(members, ObjectComponents, i + 1) == ByName(members, ObjectComponents, i) + [components];
      objects := objects + [components];
      i := i + 1;
    }
  }

  /** `loadLevel`: 1 on a parse error, with no object created; otherwise
      0, with the objects of the level, in document order. */
  method LoadLevel(document: Document) returns (status: int, objects: seq<seq<Added>>)
    ensures document.ParseError? <==> status == 1
    ensures status == 0 || status == 1
    ensures document.ParseError? ==> objects == []
    ensures document.Parsed? ==> objects == LevelObjects(document.objects)
  {
    if document.ParseError? {
      return 1, [];
    }
    objects := LoadObjects(document.objects);
    status := 0;
  }
}
