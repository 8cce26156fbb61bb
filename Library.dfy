/** The asset `Library`: two name-keyed registries, one of meshes and one
    of textures, filled with `insert` (which never overwrites) and read
    with `find`. Meshes carry the CPU-side buffers `Loader::getMesh`
    builds. */
module Assets {

  /** A mesh's buffers and the sizes recorded for upload. */
  class Mesh {
    var vertBuf: seq<real>
    var norBuf: seq<real>
    var texBuf: seq<real>
    var eleBuf: seq<int>
    var vertBufSize: int
    var norBufSize: int
    var texBufSize: int
    var eleBufSize: int

    /** `new Mesh`: empty buffers. */
    constructor ()
      ensures vertBuf == [] && norBuf == [] && texBuf == [] && eleBuf == []
      ensures vertBufSize == 0 && norBufSize == 0 && texBufSize == 0 && eleBufSize == 0
    {
      vertBuf, norBuf, texBuf, eleBuf := [], [], [], [];
      vertBufSize, norBufSize, texBufSize, eleBufSize := 0, 0, 0, 0;
    }
  }

  /** A loaded texture; its contents are not part of this model. */
  class Texture {
    constructor () {}
  }

  /** `find`: the entry for the name, or null when there is none. */
  function Find<V>(m: map<string, V>, name: string, none: V): (r: V)
    ensures name in m ==> r == m[name]
    ensures name !in m ==> r == none
  {
    if name in m then m[name] else none
  }

  /** `insert`: a name already present keeps its entry; a new name gets
      the given one. */
  function Insert<V>(m: map<string, V>, name: string, v: V): (r: map<string, V>)
    ensures r.Keys == m.Keys + {name}
    ensures forall k :: k in m ==> r[k] == m[k]
    ensures name !in m ==> r[name] == v
  {
    if name in m then m else m[name := v]
  }

  /** Finding a name after inserting it yields the first value ever
      inserted under it; other names are unaffected. */
  lemma FindAfterInsert<V>(m: map<string, V>, name: string, v: V, other: string, none: V)
    ensures Find(Insert(m, name, v), name, none) == (if name in m then m[name] else v)
    ensures other != name ==> Find(Insert(m, name, v), other, none) == Find(m, other, none)
  {
  }

  /** Inserting twice under one name is inserting once. */
  lemma InsertIdempotent<V>(m: map<string, V>, name: string, v: V, w: V)
    ensures Insert(Insert(m, name, v), name, w) == Insert(m, name, v)
  {
  }

  class Library {
    var meshes: map<string, Mesh>
    var textures: map<string, Texture?>

    constructor ()
      ensures meshes == map[] && textures == map[]
    {
      meshes, textures := map[], map[];
    }

    /** `getMesh`: the mesh registered under the name, or null. */
    method GetMesh(name: string) returns (mesh: Mesh?)
      ensures mesh == (if name in meshes then meshes[name] else null)
    {
      if name in meshes {
        mesh := meshes[name];
      } else {
        mesh := null;
      }
    }

    /** `addMesh`: registers the mesh unless the name is taken; textures
        are untouched. */
    method AddMesh(name: string, mesh: Mesh)
      modifies this
      ensures meshes == Insert(old(meshes), name, mesh) && textures == old(textures)
    {
      if name !in meshes {
        meshes := meshes[name := mesh];
      }
    }

    /** `getTexture`: the texture registered under the name, or null. */
    method GetTexture(name: string) returns (texture: Texture?)
      ensures texture == (if name in textures then textures[name] else null)
    {
      if name in textures {
        texture := textures[name];
      } else {
        texture := null;
      }
    }

    /** `addTexture`: registers the texture unless the name is taken;
        meshes are untouched. The source stores the pointer it is given,
        which may be null. */
    method AddTexture(name: string, texture: Texture?)
      modifies this
      ensures textures == Insert(old(textures), name, texture) && meshes == old(meshes)
    {
      if name !in textures {
        textures := textures[name := texture];
      }
    }
  }
}
