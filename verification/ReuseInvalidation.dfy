/**
  Reuse invalidation of the last successful publication
  (production_context_state_resilience.py) and its consumer in
  operations/manual_cio_diagnostic.py, which must never adopt an invalidated cycle.
  Texts are taken after the program's own `str(x or "").strip()`; "" is an absent text.
*/
module ReuseInvalidation {
  import opened Options

  datatype Publication = Publication(
    cycle: string,
    lastSuccessful: string,
    invalidatedAt: Option<string>,
    preserved: bool,
    scan: map<string, string>)

  const MARKER := "refresh-required:"

  function Marker(stamp: string, last: string): string
  {
    MARKER + stamp + ":" + (if last == "" then "unknown" else last)
  }

  /** The key that invalidation is meant to preserve. */
  function Origin(p: Publication): string
  {
    if p.lastSuccessful != "" then p.lastSuccessful else p.cycle
  }

  function Invalidated(p: Publication, stamp: string): Publication
  {
    p.(lastSuccessful := Origin(p), cycle := Marker(stamp, Origin(p)),
       invalidatedAt := Some(stamp), preserved := true)
  }

  class SuccessState {
    var file: Option<Publication>

    constructor (existing: Option<Publication>)
      ensures file == existing
    {
      file := existing;
    }

    method Invalidate(stamp: string)
      modifies this
      ensures old(file).None? ==> file.None?
      ensures old(file).Some? ==> file == Some(Invalidated(old(file).value, stamp))
      // The scan stays; a key that was there is kept, else the cycle takes its place.
      ensures
        old(file).Some? ==>
          && file.Some? && file.value.scan == old(file).value.scan
          && file.value.preserved && file.value.invalidatedAt == Some(stamp)
          && (old(file).value.lastSuccessful != "" ==> file.value.lastSuccessful == old(file).value.lastSuccessful)
          && (old(file).value.lastSuccessful == "" ==> file.value.lastSuccessful == old(file).value.cycle)
          && (file.value.lastSuccessful != "" ==>
                file.value.cycle == "refresh-required:" + stamp + ":" + file.value.lastSuccessful)
          && (file.value.lastSuccessful == "" ==> file.value.cycle == "refresh-required:" + stamp + ":unknown")
    {
      if file.None? {
        return;
      }
      var last := file.value.lastSuccessful;
      if last == "" {
        last := file.value.cycle;
      }
      var marked := MARKER + stamp + ":" + (if last != "" then last else "unknown");
      file := Some(file.value.(lastSuccessful := last, cycle := marked,
                               invalidatedAt := Some(stamp), preserved := true));
    }
  }

  /** The publication after one invalidation per stamp, oldest first. */
  function After(p: Publication, stamps: seq<string>): Publication
  {
    if stamps == [] then p
    else Invalidated(After(p, stamps[..|stamps| - 1]), stamps[|stamps| - 1])
  }

  predicate HasPrefix(text: string, prefix: string)
  {
    |prefix| <= |text| && text[..|prefix|] == prefix
  }

  /** The cycle a running diagnostic may adopt from the published context. */
  function ContextCycle(p: Publication): Option<string>
  {
    if p.cycle == "" || HasPrefix(p.cycle, MARKER) then None else Some(p.cycle)
  }

  lemma MarkerIsMarked(stamp: string, last: string)
    ensures HasPrefix(Marker(stamp, last), MARKER) && Marker(stamp, last) != ""
  {
  }

  /** Any number of invalidations leaves the scan payload alone and never exposes a cycle
      that could be reused. */
  lemma {:induction false} InvalidationKeepsScanAndBlocksReuse(p: Publication, stamps: seq<string>)
    requires stamps != []
    ensures After(p, stamps).scan == p.scan
    ensures ContextCycle(After(p, stamps)) == None
    ensures After(p, stamps).preserved
  {
    var n := |stamps| - 1;
    if n > 0 {
      InvalidationKeepsScanAndBlocksReuse(p, stamps[..n]);
    } else {
      assert stamps[..n] == [];
    }
    MarkerIsMarked(stamps[n], Origin(After(p, stamps[..n])));
  }

  lemma {:induction false} KeySurvives(p: Publication, stamps: seq<string>)
    requires Origin(p) != ""
    ensures stamps != [] ==> After(p, stamps).lastSuccessful == Origin(p)
    ensures Origin(After(p, stamps)) == Origin(p)
  {
    if stamps != [] {
      KeySurvives(p, stamps[..|stamps| - 1]);
    }
  }

  lemma {:induction false} EmptyKeyDrifts(p: Publication, stamps: seq<string>)
    requires Origin(p) == "" && 2 <= |stamps|
    ensures After(p, stamps).lastSuccessful == Marker(stamps[0], "")
  {
    var n := |stamps| - 1;
    if n > 1 {
      EmptyKeyDrifts(p, stamps[..n]);
    } else {
      assert stamps[..1][..0] == [];
      assert After(p, stamps[..1]) == Invalidated(p, stamps[0]);
    }
    MarkerIsMarked(stamps[0], "");
  }

  /** "The last successful key is preserved" is true of repeated invalidation exactly when
      there was a key to preserve; otherwise only the first call keeps it, and the second
      stores the first marker in its place. */
  lemma {:induction false} KeyPreservedIffPresent(p: Publication, stamps: seq<string>)
    requires stamps != []
    ensures After(p, stamps).lastSuccessful == Origin(p) <==> Origin(p) != "" || |stamps| == 1
    ensures Origin(p) == "" && 2 <= |stamps| ==> After(p, stamps).lastSuccessful == Marker(stamps[0], "")
  {
    if Origin(p) != "" {
      KeySurvives(p, stamps);
    } else if 2 <= |stamps| {
      EmptyKeyDrifts(p, stamps);
      MarkerIsMarked(stamps[0], "");
    } else {
      assert stamps[..0] == [];
    }
  }

  /** A concrete drift: two invalidations of a publication without a key. */
  lemma EmptyKeyIsLost(p: Publication)
    requires p.cycle == "" && p.lastSuccessful == ""
    ensures After(p, ["1", "2"]).lastSuccessful
         == "refresh-required:1:unknown"
  {
    var stamps := ["1", "2"];
    KeyPreservedIffPresent(p, stamps);
    assert Marker(stamps[0], "") == "refresh-required:1:unknown";
  }
}
