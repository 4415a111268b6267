/** The filters blame goes by are the changed-path filters: what it assumes of them
follows from how they are written. */
module BlameFilters {
  import opened Bytes
  import opened Blame
  import Attribution
  import Bloom

  /** What commit `c` has at the blamed path. */
  function CopyIn<T>(w: World<T>, c: nat): Option<Copy> {
    if c in w.copies then Some(w.copies[c]) else None
  }

  /** Each commit's filter has at least the bits of the paths that its first parent had
      otherwise. */
  ghost predicate Written<T>(h: Bloom.Hasher, s: Bloom.Settings, w: World<T>, path: seq<Byte>,
                             filters: map<nat, seq<Byte>>) {
    forall c :: c in filters && c in w.parents && w.parents[c] != [] ==> WrittenFor(h, s, w, path, filters[c], c)
  }

  ghost predicate WrittenFor<T>(h: Bloom.Hasher, s: Bloom.Settings, w: World<T>, path: seq<Byte>, filter: seq<Byte>,
                                c: nat)
    requires c in w.parents && w.parents[c] != []
  {
    exists paths: seq<seq<Byte>> ::
      && Bloom.Within(Bloom.FilterOf(h, s, paths, |filter|), filter)
      && (CopyIn(w, c) != CopyIn(w, w.parents[c][0]) ==> path in paths)
  }

  /** The history, with the path ruled out wherever a filter says no. */
  ghost function Filtered<T>(h: Bloom.Hasher, s: Bloom.Settings, w: World<T>, path: seq<Byte>,
                             filters: map<nat, seq<Byte>>): World<T> {
    w.(ruledOut := set c | c in filters && !Bloom.Maybe(h, s, filters[c], path))
  }

  /** Whatever a filter rules out, the first parent has the very same copy, or none
      either. */
  lemma RuledOutSame<T>(h: Bloom.Hasher, s: Bloom.Settings, w: World<T>, path: seq<Byte>, filters: map<nat, seq<Byte>>,
                        c: nat)
    requires Written(h, s, w, path, filters)
    requires c in Filtered(h, s, w, path, filters).ruledOut && c in w.parents && w.parents[c] != []
    ensures CopyIn(w, w.parents[c][0]) == CopyIn(w, c)
  {
    assert WrittenFor(h, s, w, path, filters[c], c);
    var paths: seq<seq<Byte>> :| && Bloom.Within(Bloom.FilterOf(h, s, paths, |filters[c]|), filters[c])
                                 && (CopyIn(w, c) != CopyIn(w, w.parents[c][0]) ==> path in paths);
    if path in paths { Bloom.NoFalseNegatives(h, s, paths, filters[c], path); }
  }

  /** So a history that is sound without filters is sound with them. */
  lemma FiltersSound<T(!new)>(h: Bloom.Hasher, s: Bloom.Settings, w: World<T>, path: seq<Byte>,
                              filters: map<nat, seq<Byte>>)
    requires Sound(Attribution.Unfiltered(w)) && Written(h, s, w, path, filters)
    ensures Sound(Filtered(h, s, w, path, filters))
  {
    var f := Filtered(h, s, w, path, filters);
    forall c | c in f.parents && c in f.ruledOut && c in f.copies && f.parents[c] != []
      ensures f.parents[c][0] in f.copies && f.copies[f.parents[c][0]] == f.copies[c]
    {
      RuledOutSame(h, s, w, path, filters, c);
    }
  }
}
