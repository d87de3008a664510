/** The public assets of the distribution pages: a manifest closure, collected by shared recursion. */
module ManifestClosure {

  /** The manifest: entry names, and the imports of every file it knows. */
  datatype Manifest = Manifest(entries: map<string, string>, files: map<string, seq<string>>)

  const ENTRIES: seq<string> := [
    "distributionCenter", "distributionAdmin", "distributionStyles", "sharedDetailDrawerStyles", "referralCenter", "referralStyles"]

  /** A missing entry reads as the empty name. */
  function Entry(m: Manifest, name: string): string {
    if name in m.entries then m.entries[name] else ""
  }

  // ---------- reachability ----------

  /** `path` leads from `from` to `to` through files of the manifest, import by import. */
  predicate Leads(files: map<string, seq<string>>, from: string, path: seq<string>, to: string)
    decreases path
  {
    if path == [] then from == to && to in files
    else from in files && path[0] in files[from] && Leads(files, path[0], path[1..], to)
  }

  ghost predicate Reachable(files: map<string, seq<string>>, from: string, to: string) {
    exists path :: Leads(files, from, path, to)
  }

  ghost predicate ReachableFromEntries(m: Manifest, names: seq<string>, file: string) {
    exists name | name in names :: Reachable(m.files, Entry(m, name), file)
  }

  /** Served to the public: in reach of one of the six entries of the distribution and referral pages. */
  ghost predicate Public(m: Manifest, file: string) {
    || ReachableFrom(m, "distributionCenter", file) || ReachableFrom(m, "distributionAdmin", file)
    || ReachableFrom(m, "distributionStyles", file) || ReachableFrom(m, "sharedDetailDrawerStyles", file)
    || ReachableFrom(m, "referralCenter", file) || ReachableFrom(m, "referralStyles", file)
  }

  ghost predicate ReachableFrom(m: Manifest, name: string, file: string) {
    Reachable(m.files, if name in m.entries then m.entries[name] else "", file)
  }

  lemma PublicAreReachable(m: Manifest, file: string)
    ensures Public(m, file) <==> ReachableFromEntries(m, ENTRIES, file)
  {
    hide Reachable, Leads;
    assert ENTRIES[0] == "distributionCenter" && ENTRIES[1] == "distributionAdmin" && ENTRIES[2] == "distributionStyles";
    assert ENTRIES[3] == "sharedDetailDrawerStyles" && ENTRIES[4] == "referralCenter" && ENTRIES[5] == "referralStyles";
    assert forall name | name in ENTRIES :: ReachableFrom(m, name, file) <==> Reachable(m.files, Entry(m, name), file);
    assert forall i | 0 <= i < 6 :: ENTRIES[i] in ENTRIES;
  }

  lemma ReachesItself(files: map<string, seq<string>>, name: string)
    requires name in files
    ensures Reachable(files, name, name)
  {
    assert Leads(files, name, [], name);
  }

  lemma ReachesThroughImport(files: map<string, seq<string>>, name: string, dependency: string, file: string)
    requires name in files && dependency in files[name] && Reachable(files, dependency, file)
    ensures Reachable(files, name, file)
  {
    var path :| Leads(files, dependency, path, file);
    assert ([dependency] + path)[1..] == path;
    assert Leads(files, name, [dependency] + path, file);
  }

  /** Everything an allowed file imports, as far as it exists, is allowed. */
  ghost predicate Closed(files: map<string, seq<string>>, allowed: set<string>) {
    ClosedBut(files, allowed, {})
  }

  /** Closed, except for the files that are still being looked at. */
  ghost predicate ClosedBut(files: map<string, seq<string>>, allowed: set<string>, open: set<string>) {
    forall f, d | f in allowed && f !in open && f in files && d in files[f] && d in files :: d in allowed
  }

  lemma {:induction false} ClosedCoversPath(files: map<string, seq<string>>, allowed: set<string>, from: string,
                          path: seq<string>, to: string)
    requires Closed(files, allowed) && Leads(files, from, path, to) && (from in files ==> from in allowed)
    ensures to in allowed
    decreases path
  {
    if path != [] {
      assert path[0] in files by {
        LeadsFromFile(files, path[0], path[1..], to);
      }
      ClosedCoversPath(files, allowed, path[0], path[1..], to);
    }
  }

  lemma LeadsFromFile(files: map<string, seq<string>>, from: string, path: seq<string>, to: string)
    requires Leads(files, from, path, to)
    ensures from in files
  {
  }

  // ---------- the recursion ----------

  class Closure {
    const manifest: Manifest
    var allowed: set<string>

    constructor (manifest: Manifest)
      ensures this.manifest == manifest && allowed == {}
    {
      this.manifest, allowed := manifest, {};
    }

    /** Adds `name` and what it reaches; `open` are the files further up in the recursion. */
    method Include(name: string, ghost open: set<string>)
      requires allowed <= manifest.files.Keys && open <= allowed && ClosedBut(manifest.files, allowed, open)
      modifies this
      ensures old(allowed) <= allowed <= manifest.files.Keys
      ensures ClosedBut(manifest.files, allowed, open)
      ensures name in manifest.files ==> name in allowed
      ensures forall f | f in allowed && f !in old(allowed) :: Reachable(manifest.files, name, f)
      decreases manifest.files.Keys - allowed
    {
      hide Reachable;
      if name in allowed {
        return;
      }
      if name !in manifest.files {
        return;
      }
      var imports := manifest.files[name];
      ReachesItself(manifest.files, name);
      allowed := allowed + {name};
      for i := 0 to |imports|
        invariant old(allowed) + {name} <= allowed <= manifest.files.Keys
        invariant ClosedBut(manifest.files, allowed, open + {name})
        invariant forall d | d in imports[..i] && d in manifest.files :: d in allowed
        invariant forall f | f in allowed && f !in old(allowed) :: Reachable(manifest.files, name, f)
      {
        ghost var before := allowed;
        Include(imports[i], open + {name});
        forall f | f in allowed && f !in before
          ensures Reachable(manifest.files, name, f)
        {
          ReachesThroughImport(manifest.files, name, imports[i], f);
        }
        assert imports[..i + 1] == imports[..i] + [imports[i]];
      }
      assert imports[..|imports|] == imports;
    }

    /** For any manifest, cyclic or with missing files, the collection ends with exactly the files
        reachable from the entries. */
    method Collect()
      requires allowed == {}
      modifies this
      ensures forall f :: f in allowed <==> Public(manifest, f)
    {
      hide Reachable;
      for i := 0 to |ENTRIES|
        invariant allowed <= manifest.files.Keys && ClosedBut(manifest.files, allowed, {})
        invariant forall k | 0 <= k < i && Entry(manifest, ENTRIES[k]) in manifest.files :: Entry(manifest, ENTRIES[k]) in allowed
        invariant forall f | f in allowed :: ReachableFromEntries(manifest, ENTRIES, f)
      {
        ghost var before := allowed;
        Include(Entry(manifest, ENTRIES[i]), {});
        forall f | f in allowed
          ensures ReachableFromEntries(manifest, ENTRIES, f)
        {
          assert ENTRIES[i] in ENTRIES;
        }
      }
      forall f | ReachableFromEntries(manifest, ENTRIES, f)
        ensures f in allowed
      {
        CoversEntries(manifest, allowed, f);
      }
      forall f
        ensures Public(manifest, f) <==> ReachableFromEntries(manifest, ENTRIES, f)
      {
        PublicAreReachable(manifest, f);
      }
    }
  }

  lemma CoversEntries(m: Manifest, allowed: set<string>, file: string)
    requires Closed(m.files, allowed) && ReachableFromEntries(m, ENTRIES, file)
    requires forall k | 0 <= k < |ENTRIES| && Entry(m, ENTRIES[k]) in m.files :: Entry(m, ENTRIES[k]) in allowed
    ensures file in allowed
  {
    var name :| name in ENTRIES && Reachable(m.files, Entry(m, name), file);
    var path :| Leads(m.files, Entry(m, name), path, file);
    ClosedCoversPath(m.files, allowed, Entry(m, name), path, file);
  }

  /** The distribution pages serve only files of the manifest: nothing is allowed by name alone. */
  lemma OnlyManifestFiles(m: Manifest, file: string)
    requires ReachableFromEntries(m, ENTRIES, file)
    ensures file in m.files
  {
    var name :| name in ENTRIES && Reachable(m.files, Entry(m, name), file);
    var path :| Leads(m.files, Entry(m, name), path, file);
    LeadsToFile(m.files, Entry(m, name), path, file);
  }

  lemma {:induction false} LeadsToFile(files: map<string, seq<string>>, from: string, path: seq<string>, to: string)
    requires Leads(files, from, path, to)
    ensures to in files
    decreases path
  {
    if path != [] {
      LeadsToFile(files, path[0], path[1..], to);
    }
  }
}
