/** `Loader::getMesh`: a mesh is taken from the library when the name is
    there; otherwise the OBJ file's shapes are concatenated into one new
    mesh, whose element indices are re-based so that each shape's indices
    still name that shape's own vertices, and the mesh is registered. The
    OBJ parser is not part of this model: its outcome is an input. */
module Loader {
  import opened Assets

  /** One OBJ shape: flat position, normal and texture-coordinate buffers
      (three reals per vertex position) and its element indices. */
  datatype Shape = Shape(positions: seq<real>, normals: seq<real>, texcoords: seq<real>, indices: seq<nat>)

  /** The parser's outcome: the shapes, or a failure (the source prints
      the error and exits). */
  datatype ObjFile = Parsed(shapes: seq<Shape>) | ParseError

  /** The in-order concatenation of the shapes' position buffers. */
  function Positions(shapes: seq<Shape>): (r: seq<real>)
  {
    if shapes == [] then [] else Positions(shapes[..|shapes| - 1]) + shapes[|shapes| - 1].positions
  }

  /** The concatenation of their normal buffers. */
  function Normals(shapes: seq<Shape>): (r: seq<real>)
  {
    if shapes == [] then [] else Normals(shapes[..|shapes| - 1]) + shapes[|shapes| - 1].normals
  }

  /** The concatenation of their texture-coordinate buffers. */
  function TexCoords(shapes: seq<Shape>): (r: seq<real>)
  {
    if shapes == [] then [] else TexCoords(shapes[..|shapes| - 1]) + shapes[|shapes| - 1].texcoords
  }

  /** Vertices counted for re-basing: each shape contributes the integer
      part of a third of its position count. */
  function VertCount(shapes: seq<Shape>): (n: nat)
  {
    if shapes == [] then 0 else VertCount(shapes[..|shapes| - 1]) + |shapes[|shapes| - 1].positions| / 3
  }

  /** The total number of element indices of the shapes. */
  function IndexCount(shapes: seq<Shape>): (n: nat)
  {
    if shapes == [] then 0 else IndexCount(shapes[..|shapes| - 1]) + |shapes[|shapes| - 1].indices|
  }

  /** Each index moved up by base. */
  function Shift(indices: seq<nat>, base: nat): (r: seq<int>)
    ensures |r| == |indices|
    ensures forall j :: 0 <= j < |r| ==> r[j] == indices[j] + base
  {
    if indices == [] then [] else Shift(indices[..|indices| - 1], base) + [indices[|indices| - 1] + base]
  }

  /** The element buffer: every shape's indices shifted by the vertex
      count of the shapes before it. */
  function Elements(shapes: seq<Shape>): (r: seq<int>)
  {
    if shapes == [] then []
    else Elements(shapes[..|shapes| - 1]) + Shift(shapes[|shapes| - 1].indices, VertCount(shapes[..|shapes| - 1]))
  }

  /** The element buffer holds exactly the shapes' indices: as many as
      they have together, and index j of shape k sits after the earlier
      shapes' indices, shifted by the earlier shapes' vertex count. */
  lemma {:induction false} ElementsLayout(shapes: seq<Shape>, k: nat, j: nat)
    requires k < |shapes| && j < |shapes[k].indices|
    ensures |Elements(shapes)| == IndexCount(shapes)
    ensures IndexCount(shapes[..k]) + j < |Elements(shapes)|
    ensures Elements(shapes)[IndexCount(shapes[..k]) + j] == shapes[k].indices[j] + VertCount(shapes[..k])
  {
    var m := |shapes| - 1;
    var init := shapes[..m];
    ElementsLength(init);
    if k < m {
      ElementsLayout(init, k, j);
      assert init[..k] == shapes[..k];
    } else {
      assert init == shapes[..k];
    }
  }

  /** The element buffer is as long as the shapes' indices together. */
  lemma {:induction false} ElementsLength(shapes: seq<Shape>)
    ensures |Elements(shapes)| == IndexCount(shapes)
  {
    if shapes != [] {
      ElementsLength(shapes[..|shapes| - 1]);
    }
  }

  /** A shape is well formed when its positions come in threes and its
      indices name its own vertices. */
  predicate WellFormed(s: Shape)
  {
    |s.positions| % 3 == 0 && forall j :: 0 <= j < |s.indices| ==> s.indices[j] < |s.positions| / 3
  }

  /** For well-formed shapes, every element names a vertex of the merged
      position buffer, which holds three reals per counted vertex. */
  lemma {:induction false} ElementsInRange(shapes: seq<Shape>)
    requires forall k :: 0 <= k < |shapes| ==> WellFormed(shapes[k])
    ensures |Positions(shapes)| == 3 * VertCount(shapes)
    ensures forall e :: 0 <= e < |Elements(shapes)| ==> 0 <= Elements(shapes)[e] < VertCount(shapes)
  {
    if shapes != [] {
      var m := |shapes| - 1;
      var init := shapes[..m];
      ElementsInRange(init);
      var last := Shift(shapes[m].indices, VertCount(init));
      assert Elements(shapes) == Elements(init) + last;
      forall e | 0 <= e < |Elements(shapes)|
        ensures 0 <= Elements(shapes)[e] < VertCount(shapes)
      {
        if e >= |Elements(init)| {
          assert Elements(shapes)[e] == last[e - |Elements(init)|];
        }
      }
    }
  }

  /** Taking one more shape extends every buffer by that shape's part. */
  lemma ShapesStep(shapes: seq<Shape>, i: nat)
    requires i < |shapes|
    ensures Positions(shapes[..i + 1]) == Positions(shapes[..i]) + shapes[i].positions
    ensures Normals(shapes[..i + 1]) == Normals(shapes[..i]) + shapes[i].normals
    ensures TexCoords(shapes[..i + 1]) == TexCoords(shapes[..i]) + shapes[i].texcoords
    ensures Elements(shapes[..i + 1]) == Elements(shapes[..i]) + Shift(shapes[i].indices, VertCount(shapes[..i]))
    ensures VertCount(shapes[..i + 1]) == VertCount(shapes[..i]) + |shapes[i].positions| / 3
  {
    assert shapes[..i + 1][..i] == shapes[..i];
  }

  /** The element loop of `getMesh`: the shape's indices, each plus the
      running vertex count, pushed onto the element buffer. */
  method PushShifted(mesh: Mesh, indices: seq<nat>, vertCount: nat)
    modifies mesh
    ensures mesh.eleBuf == old(mesh.eleBuf) + Shift(indices, vertCount)
    ensures mesh.vertBuf == old(mesh.vertBuf) && mesh.norBuf == old(mesh.norBuf) && mesh.texBuf == old(mesh.texBuf)
    ensures mesh.vertBufSize == old(mesh.vertBufSize) && mesh.norBufSize == old(mesh.norBufSize)
    ensures mesh.texBufSize == old(mesh.texBufSize) && mesh.eleBufSize == old(mesh.eleBufSize)
  {
    var j := 0;
    while j < |indices|
      invariant j <= |indices|
      invariant mesh.eleBuf == old(mesh.eleBuf) + Shift(indices[..j], vertCount)
      invariant mesh.vertBuf == old(mesh.vertBuf) && mesh.norBuf == old(mesh.norBuf) && mesh.texBuf == old(mesh.texBuf)
      invariant mesh.vertBufSize == old(mesh.vertBufSize) && mesh.norBufSize == old(mesh.norBufSize)
      invariant mesh.texBufSize == old(mesh.texBufSize) && mesh.eleBufSize == old(mesh.eleBufSize)
    {
      assert indices[..j + 1][..j] == indices[..j];
      mesh.eleBuf := mesh.eleBuf + [indices[j] + vertCount];
      j := j + 1;
    }
    assert indices[..j] == indices;
  }

  /** One shape's buffers appended to the mesh, its indices re-based by
      the vertices before it. */
  method AppendShape(mesh: Mesh, shape: Shape, vertCount: nat)
    modifies mesh
    ensures mesh.vertBuf == old(mesh.vertBuf) + shape.positions
    ensures mesh.norBuf == old(mesh.norBuf) + shape.normals
    ensures mesh.texBuf == old(mesh.texBuf) + shape.texcoords
    ensures mesh.eleBuf == old(mesh.eleBuf) + Shift(shape.indices, vertCount)
  {
    mesh.vertBuf := mesh.vertBuf + shape.positions;
    mesh.norBuf := mesh.norBuf + shape.normals;
    mesh.texBuf := mesh.texBuf + shape.texcoords;
    PushShifted(mesh, shape.indices, vertCount);
  }

  /** The mesh the loader builds from parsed shapes: their buffers
      concatenated in order, the element indices re-based, and each
      buffer size recorded. */
  method BuildMesh(shapes: seq<Shape>) returns (mesh: Mesh)
    ensures fresh(mesh)
    ensures mesh.vertBuf == Positions(shapes) && mesh.norBuf == Normals(shapes) &&
      mesh.texBuf == TexCoords(shapes) && mesh.eleBuf == Elements(shapes)
    ensures mesh.vertBufSize == |mesh.vertBuf| && mesh.norBufSize == |mesh.norBuf| &&
      mesh.texBufSize == |mesh.texBuf| && mesh.eleBufSize == |mesh.eleBuf|
  {
    mesh := new Mesh();
    var vertCount := 0;
    var i := 0;
    while i < |shapes|
      invariant i <= |shapes| && vertCount == VertCount(shapes[..i])
      invariant mesh.vertBuf == Positions(shapes[..i]) && mesh.norBuf == Normals(shapes[..i])
      invariant mesh.texBuf == TexCoords(shapes[..i]) && mesh.eleBuf == Elements(shapes[..i])
      invariant fresh(mesh)
    {
      ShapesStep(shapes, i);
      AppendShape(mesh, shapes[i], vertCount);
      vertCount := vertCount + |shapes[i].positions| / 3;
      i := i + 1;
    }
    assert shapes[..i] == shapes;
    mesh.vertBufSize := |mesh.vertBuf|;
    mesh.norBufSize := |mesh.norBuf|;
    mesh.texBufSize := |mesh.texBuf|;
    mesh.eleBufSize := |mesh.eleBuf|;
  }

  /** `getMesh(name)`. A name in the library returns its mesh and changes
      nothing. Otherwise a failed parse ends the program (null here, with
      the library unchanged); a parsed file yields a fresh mesh whose
      buffers are the shapes' concatenated buffers and re-based indices,
      whose recorded sizes are the buffer lengths, and which is registered
      under the name. */
  method GetMesh(lib: Library, name: string, file: ObjFile) returns (mesh: Mesh?)
    modifies lib
    ensures name in old(lib.meshes) ==> mesh == old(lib.meshes)[name] && lib.meshes == old(lib.meshes)
    ensures name !in old(lib.meshes) && file.ParseError? ==> mesh == null && lib.meshes == old(lib.meshes)
    ensures name !in old(lib.meshes) && file.Parsed? ==>
      mesh != null && fresh(mesh) &&
      mesh.vertBuf == Positions(file.shapes) && mesh.norBuf == Normals(file.shapes) &&
      mesh.texBuf == TexCoords(file.shapes) && mesh.eleBuf == Elements(file.shapes) &&
      mesh.vertBufSize == |mesh.vertBuf| && mesh.norBufSize == |mesh.norBuf| &&
      mesh.texBufSize == |mesh.texBuf| && mesh.eleBufSize == |mesh.eleBuf| &&
      lib.meshes == old(lib.meshes)[name := mesh]
    ensures lib.textures == old(lib.textures)
  {
    mesh := lib.GetMesh(name);
    if mesh != null {
      return;
    }
    if file.ParseError? {
      return;
    }
    mesh := BuildMesh(file.shapes);
    lib.AddMesh(name, mesh);
  }
}
