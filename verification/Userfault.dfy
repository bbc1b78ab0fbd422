/**
  One managed page under userfaultfd, when MADV_DONTNEED may fail. The driver only reports that, and the host copy
  stays beside the frame. Pages do not depend on each other here.
*/
module Userfault {
  import opened Base
  import Runs

  type Page = seq<Byte>

  /** `flat` is the page a program believes it has. */
  datatype State = State(inVram: bool, frame: Page, host: Option<Page>, flat: Page)

  /** `HostStore` needs no fault if the host copy is there. A host thread that touches a missing page has the driver
      evict it. `EvictFails`: UFFDIO_COPY failed, and the page is mapped again. */
  datatype Action = Migrate(dropped: bool) | DeviceStore(page: Page) | HostStore(page: Page) | Evict | EvictFails

  ghost predicate Does(s: State, s': State, a: Action) {
    match a
    case Migrate(dropped) =>
      !s.inVram && s.host.Some?
          && s' == s.(inVram := true, frame := s.host.value, host := if dropped then None else s.host)
    case DeviceStore(page) => s.inVram && |page| == |s.flat| && s' == s.(frame := page, flat := page)
    case HostStore(page) => s.host.Some? && |page| == |s.flat| && s' == s.(host := Some(page), flat := page)
    // UFFDIO_COPY reports EEXIST if the host copy is there, and that counts as success.
    case Evict => s.inVram && s' == s.(inVram := false, host := if s.host.None? then Some(s.frame) else s.host)
    case EvictFails => s.inVram && s.host.None? && s' == s
  }

  /** Engines and host threads see the page the program believes it has. */
  ghost predicate Coherent(s: State) {
    (s.inVram ==> s.frame == s.flat) && (s.host.Some? ==> s.host.value == s.flat) && (!s.inVram ==> s.host.Some?)
  }

  /** A drop has failed, and the page is there twice. */
  ghost predicate Twice(s: State) {
    s.inVram && s.host.Some?
  }

  /** A step in which no drop fails. */
  ghost predicate Dropping(s: State, s': State, a: Action) {
    Does(s, s', a) && a != Migrate(false)
  }

  ghost predicate Init(s: State) {
    !s.inVram && s.host == Some(s.flat)
  }

  ghost predicate Once(s: State) {
    Coherent(s) && !Twice(s)
  }

  /** While drops succeed, no byte is lost. */
  lemma RunKeepsBytes(run: seq<State>, acts: seq<Action>, k: nat)
    requires Runs.IsRun(run, acts, Init, Dropping) && k < |run|
    ensures Coherent(run[k]) && !Twice(run[k])
  {
    Runs.KeepInvariant(run, acts, Init, Dropping, Once, k);
  }

  /** A page on the host can go to VRAM, be stored to, and come back, and then it is there once, with what was stored
      last. */
  lemma PageTravels(s: State, page: Page) returns (u: State, t: State)
    requires !s.inVram && s.host == Some(s.flat) && |page| == |s.flat|
    ensures Runs.Reaches(s, u, Dropping) && u == State(true, s.flat, None, s.flat)
    ensures Runs.Reaches(u, t, Dropping) && t == State(false, page, Some(page), page)
  {
    u := State(true, s.flat, None, s.flat);
    var v := u.(frame := page, flat := page);
    t := State(false, page, Some(page), page);
    Runs.ReachesItself(u, Dropping);
    Runs.ReachesItself(t, Dropping);
    Runs.StepReaches(s, Migrate(true), u, u, Dropping);
    Runs.StepReaches(v, Evict, t, t, Dropping);
    Runs.StepReaches(u, DeviceStore(page), v, t, Dropping);
  }

  /** What an engine stores to a page that is there twice is gone after the next eviction, unless it is what the host
      copy has anyway. */
  lemma StoreIsLost(s: State, page: Page) returns (t: State)
    requires Twice(s) && |page| == |s.flat|
    ensures Runs.Reaches(s, t, Dropping) && t == State(false, page, s.host, page)
    ensures Coherent(t) <==> s.host == Some(page)
  {
    var u := s.(frame := page, flat := page);
    t := u.(inVram := false);
    assert Dropping(s, u, DeviceStore(page)) && Dropping(u, t, Evict);
    Runs.ReachesItself(t, Dropping);
    Runs.StepReaches(u, Evict, t, t, Dropping);
    Runs.StepReaches(s, DeviceStore(page), u, t, Dropping);
  }

  /** Exactly when a page is safe from then on, as long as no further drop fails: when it is not there twice. */
  lemma SafeIffOnce(s: State)
    requires Coherent(s) && |s.flat| > 0
    ensures !Twice(s) <==> forall t :: Runs.Reaches(s, t, Dropping) ==> Coherent(t)
  {
    if Twice(s) {
      var other: Byte := if s.flat[0] == 0 then 1 else 0;
      var page := s.flat[0 := other];
      assert page[0] != s.flat[0];
      var t := StoreIsLost(s, page);
    } else {
      forall t | Runs.Reaches(s, t, Dropping)
        ensures Coherent(t)
      {
        Runs.KeepReaching(s, t, Dropping, Once);
      }
    }
  }
}
