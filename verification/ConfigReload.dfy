/** `ConfigLoader`: loading and reloading the layered configuration. A reload publishes a new
    snapshot with its tables only when every stage succeeds, and otherwise changes nothing. */
module ConfigReload {
  import opened Runs
  import opened ConfigMerge
  import RC = RuntimeConfig

  // The two files, as they are found when they are read. A file may be absent from the
  // configuration or unreadable.
  datatype File = NotConfigured | Unreadable | Content(value: Value)

  datatype Files = Files(base: File, over: File)

  function Layers(files: Files): seq<Value> {
    (if files.base.Content? then [files.base.value] else [])
    + (if files.over.Content? then [files.over.value] else [])
  }

  predicate Readable(files: Files) {
    files.base != Unreadable && files.over != Unreadable
  }

  class ConfigLoader {
    const defaults: Value
    // Deserialization, the environment's overrides and the configuration's own validation.
    const decode: Value -> Option<RC.Parts>
    var handler: Option<(RC.Parts, RC.Tables) -> bool>
    var current: RC.Parts
    var tables: RC.Tables

    /** The published tables are those of the published configuration. */
    ghost predicate Valid()
      reads this
    {
      RC.Acceptable(current) && RC.Fits(current, tables)
    }

    /** The configuration that the files describe. */
    ghost function Described(files: Files): Option<RC.Parts> {
      if Readable(files) then decode(Layered(defaults, Layers(files))) else None
    }

    /** `load_snapshot`. */
    method LoadSnapshot(files: Files) returns (candidate: Option<RC.Parts>)
      ensures candidate == Described(files)
    {
      if files.base == Unreadable || files.over == Unreadable { return None; }
      var v := LoadLayers(defaults, if files.base.Content? then Some(files.base.value) else None,
                          if files.over.Content? then Some(files.over.value) else None);
      candidate := decode(v);
    }

    ghost predicate Approves(parts: RC.Parts)
      reads this
    {
      handler.Some? ==> forall t :: RC.Fits(parts, t) ==> handler.value(parts, t)
    }

    /** `reload`: transactional in the configuration and its tables. */
    method Reload(files: Files) returns (ok: bool)
      requires Valid()
      modifies this`current, this`tables
      ensures Valid()
      ensures ok <==> && Described(files).Some? && RC.Acceptable(Described(files).value)
                      && old(Approves(Described(files).value))
      ensures if ok then current == Described(files).value else current == old(current) && tables == old(tables)
    {
      var candidate := LoadSnapshot(files);
      if candidate.None? { return false; }
      var built := RC.FromParts(candidate.value);
      if built.Err? { return false; }
      if handler.Some? {
        forall t | RC.Fits(candidate.value, t) ensures t == built.value {
          RC.TablesAreDetermined(candidate.value, t, built.value);
        }
        if !handler.value(candidate.value, built.value) { return false; }
      }
      current, tables := candidate.value, built.value;
      return true;
    }

    /** A path that the override sets to a scalar is seen by the decoder with that scalar, whatever
        the base and the defaults say. */
    lemma OverrideReachesDecoder(files: Files, path: seq<Key>)
      requires files.over.Content? && At(files.over.value, path).Leaf?
      ensures At(Layered(defaults, Layers(files)), path) == At(files.over.value, path)
    {
      var layers := Layers(files);
      LastLayerWins(defaults, layers, path);
    }

    /** A path that the base sets to a scalar is seen by the decoder with that scalar, where the
        override is silent and has not taken over. */
    lemma BaseReachesDecoder(files: Files, path: seq<Key>)
      requires files.base.Content? && At(files.base.value, path).Leaf?
      requires files.over.Content? ==>
                 && At(files.over.value, path) == Absent
                 && !Replaced(Merge(defaults, files.base.value), files.over.value, path)
      ensures At(Layered(defaults, Layers(files)), path) == At(files.base.value, path)
    {
      var base := [files.base.value];
      assert base[..0] == [];
      LastLayerWins(defaults, base, path);
      if files.over.Content? {
        var layers := base + [files.over.value];
        assert layers[..1] == base;
        LastLayerWins(defaults, layers, path);
      } else {
        assert base + [] == base;
      }
    }

    /** Without files the defaults are decoded, and where both files are silent they show through. */
    lemma DefaultsReachDecoder(files: Files, path: seq<Key>)
      requires files.base.Content? ==>
                 At(files.base.value, path) == Absent && !Replaced(defaults, files.base.value, path)
      requires files.over.Content? ==>
                 && At(files.over.value, path) == Absent
                 && !Replaced(if files.base.Content? then Merge(defaults, files.base.value) else defaults,
                              files.over.value, path)
      ensures At(Layered(defaults, Layers(files)), path) == At(defaults, path)
    {
      var base := if files.base.Content? then [files.base.value] else [];
      if files.base.Content? {
        assert base[..0] == [];
        LastLayerWins(defaults, base, path);
      }
      if files.over.Content? {
        var layers := base + [files.over.value];
        assert layers[..|base|] == base;
        LastLayerWins(defaults, layers, path);
      } else {
        assert base + [] == base;
      }
    }

    constructor (defaults: Value, decode: Value -> Option<RC.Parts>, parts: RC.Parts, tables: RC.Tables)
      requires RC.Acceptable(parts) && RC.Fits(parts, tables)
      ensures Valid() && current == parts && this.tables == tables && handler == None
    {
      this.defaults, this.decode := defaults, decode;
      handler, current, this.tables := None, parts, tables;
    }
  }
}
