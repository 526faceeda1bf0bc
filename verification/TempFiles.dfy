/** Which temporary files exist, by the id of the chunk they are for. */
module TempFiles {
  import opened DiskPaths
  import opened DiskStores

  /** The chunk ids whose temporary file is among the file names. */
  ghost function Temps(layout: Layout, names: set<string>): iset<string> {
    iset id | TempPath(layout.tempDir, id) in names
  }

  ghost function AllOf(ids: set<string>): iset<string> {
    iset id | id in ids
  }

  /** From file names `before` to `after`: the temporary files of `made` were created, then those of `gone`
      removed, and no other temporary file came or went. */
  ghost predicate TempsBecame(layout: Layout, before: set<string>, after: set<string>, made: set<string>,
                              gone: set<string>)
  {
    Temps(layout, after) == (Temps(layout, before) + AllOf(made)) - AllOf(gone)
  }

  lemma SameTemps(layout: Layout, names: set<string>)
    ensures TempsBecame(layout, names, names, {}, {})
  {}

  lemma StillOpen(layout: Layout, names: set<string>, id: string)
    requires TempPath(layout.tempDir, id) in names
    ensures TempsBecame(layout, names, names, {id}, {})
  {}

  lemma OneTempPath(layout: Layout, id: string)
    ensures Temps(layout, {TempPath(layout.tempDir, id)}) == iset{id}
  {
    forall k | TempPath(layout.tempDir, k) == TempPath(layout.tempDir, id) ensures k == id {
      TempPathsDistinct(layout.tempDir, k, id);
    }
  }

  lemma TempOpened(layout: Layout, names: set<string>, id: string)
    ensures TempsBecame(layout, names, names + {TempPath(layout.tempDir, id)}, {id}, {})
  {
    OneTempPath(layout, id);
    var p := TempPath(layout.tempDir, id);
    assert Temps(layout, names + {p}) == Temps(layout, names) + Temps(layout, {p});
  }

  lemma TempRemoved(layout: Layout, names: set<string>, id: string)
    ensures TempsBecame(layout, names, names - {TempPath(layout.tempDir, id)}, {}, {id})
  {
    OneTempPath(layout, id);
    var p := TempPath(layout.tempDir, id);
    assert Temps(layout, names - {p}) == Temps(layout, names) - Temps(layout, {p});
  }

  /** A commit takes the temporary file away; the chunk file it becomes is no temporary file. */
  lemma TempMoved(layout: Layout, names: set<string>, id: string)
    requires Legal(layout, id)
    ensures TempsBecame(layout, names, names - {TempPath(layout.tempDir, id)} + {PathOf(layout, id)}, {}, {id})
  {
    TempRemoved(layout, names, id);
    forall k ensures TempPath(layout.tempDir, k) != PathOf(layout, id) {
      TempIsNoChunkPath(layout.root, layout.splitLevel, layout.tempDir, k, id);
    }
    var left := names - {TempPath(layout.tempDir, id)};
    assert Temps(layout, left + {PathOf(layout, id)}) == Temps(layout, left);
  }

  lemma TempsJoin(layout: Layout, a: set<string>, b: set<string>, c: set<string>, made: set<string>,
                  more: set<string>, gone: set<string>)
    requires TempsBecame(layout, a, b, made, {}) && TempsBecame(layout, b, c, more, gone)
    ensures TempsBecame(layout, a, c, made + more, gone)
  {}

  lemma TempsThen(layout: Layout, a: set<string>, b: set<string>, c: set<string>, made: set<string>, gone: set<string>)
    requires TempsBecame(layout, a, b, made, {}) && TempsBecame(layout, b, c, {}, gone)
    ensures TempsBecame(layout, a, c, made, gone)
  {}

  /** Creating what is then removed leaves only the removal. */
  lemma OpenedAndGone(layout: Layout, a: set<string>, b: set<string>, made: set<string>, gone: set<string>)
    requires TempsBecame(layout, a, b, made, gone) && made <= gone
    ensures TempsBecame(layout, a, b, {}, gone)
  {}
}
