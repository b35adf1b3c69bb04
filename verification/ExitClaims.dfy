/** The cross-process exit claim of a trade: one file, created exclusively, overwritten by its own
    owner or once expired, removed on release. Each operation is one atomic step. */
module ExitClaims {
  import opened Basics

  /** The claim file of one trade. */
  datatype File = Absent | Unreadable | Held(owner: string, at: real)

  const DEFAULT_TTL := 120.0

  /** A TTL of zero falls back to the configured one. */
  function Ttl(seconds: Option<real>): real {
    if seconds.Some? && seconds.value != 0.0 then seconds.value else DEFAULT_TTL
  }

  predicate Fresh(file: File, now: real, ttl: real) {
    file.Held? && now - file.at < ttl
  }

  function Claim(file: File, owner: string, now: real, ttl: real): (File, bool) {
    if Fresh(file, now, ttl) && file.owner != owner then (file, false) else (Held(owner, now), true)
  }

  function Release(file: File, owner: Option<string>): File {
    if owner.Some? && owner.value != "" && !(file.Held? && file.owner == owner.value) then file else Absent
  }

  datatype Operation =
    | ClaimBy(owner: string)
    | ReleaseBy(owner: string)

  /** An operation and the time it happens. */
  datatype Event = Event(operation: Operation, at: real)

  function Apply(file: File, e: Event, ttl: real): File {
    match e.operation
    case ClaimBy(owner) => Claim(file, owner, e.at, ttl).0
    case ReleaseBy(owner) => Release(file, Some(owner))
  }

  function Run(file: File, events: seq<Event>, ttl: real): File {
    if events == [] then file
    else Apply(Run(file, events[..|events| - 1], ttl), events[|events| - 1], ttl)
  }

  /** Nothing in the events is a release by the owner itself, and all of them fall within one TTL of
      the claim. */
  ghost predicate Undisturbed(events: seq<Event>, owner: string, at: real, ttl: real) {
    forall i | 0 <= i < |events| ::
      && at <= events[i].at < at + ttl
      && events[i].operation != ReleaseBy(owner)
      && (events[i].operation.ReleaseBy? ==> events[i].operation.owner != "")
  }

  /** Mutual exclusion: whatever the others try after an owner's claim, as long as the owner does not
      release it, every claim by another owner within the TTL fails and the file stays the owner's. */
  lemma {:induction false} HeldUntilReleased(file: File, owner: string, at: real, events: seq<Event>, ttl: real)
    requires Undisturbed(events, owner, at, ttl)
    requires Claim(file, owner, at, ttl).1
    ensures var held := Run(Claim(file, owner, at, ttl).0, events, ttl);
            && held.Held? && held.owner == owner && held.at >= at
            && forall other, now | other != owner && now < at + ttl :: !Claim(held, other, now, ttl).1
  {
    if events != [] {
      var n := |events| - 1;
      assert forall i | 0 <= i < n :: events[..n][i] == events[i];
      HeldUntilReleased(file, owner, at, events[..n], ttl);
      assert events[n].at < at + ttl;
    }
  }

  /** How long a claim lasts: however it was won, by whomever renewed, another owner's claim succeeds
      exactly from one TTL after it, or after a release by its owner, never by the other's own release; an
      unreadable file stops nobody, and no release by name removes it.
      Without a TTL, or with one of 0, that is 120 seconds. */
  lemma ClaimableAgainIff(file: File, owner: string, other: string, at: real, now: real, ttl: real)
    requires owner != other && Claim(file, owner, at, ttl).1
    ensures Claim(Claim(file, owner, at, ttl).0, other, now, ttl).1 <==> now >= at + ttl
    ensures Claim(Claim(file, owner, at, ttl).0, owner, now, ttl).1
    ensures owner != "" ==> Claim(Release(Claim(file, owner, at, ttl).0, Some(owner)), other, now, ttl).1
    ensures Claim(Release(Claim(file, owner, at, ttl).0, None), other, now, ttl).1
    ensures other != "" ==> Release(Claim(file, owner, at, ttl).0, Some(other)) == Claim(file, owner, at, ttl).0
    ensures other != "" ==> Release(Unreadable, Some(other)) == Unreadable
    ensures Claim(Unreadable, other, now, ttl) == Claim(Absent, other, now, ttl) == (Held(other, now), true)
    ensures Ttl(None) == Ttl(Some(0.0)) == 120.0 && (ttl != 0.0 ==> Ttl(Some(ttl)) == ttl)
  {}

  /** The file that claims, releases and queries of one trade go through. */
  class ClaimFile {
    var file: File

    constructor ()
      ensures file == Absent
    {
      file := Absent;
    }

    method ClaimExit(owner: string, now: real, seconds: Option<real>) returns (ok: bool)
      modifies this
      ensures (file, ok) == Claim(old(file), owner, now, Ttl(seconds))
      decreases file.Unreadable?
    {
      var ttl := Ttl(seconds);
      if file.Held? && now - file.at < ttl && file.owner != "" && file.owner != owner {
        return false;
      }
      if file.Absent? {
        file := Held(owner, now);
        return true;
      }
      if file.Unreadable? {
        file := Absent;
        ok := ClaimExit(owner, now, Some(ttl));
        return;
      }
      if file.owner == owner || now - file.at >= ttl {
        file := Held(owner, now);
        return true;
      }
      return false;
    }

    method ReleaseExit(owner: Option<string>)
      modifies this
      ensures file == Release(old(file), owner)
    {
      if file.Absent? {
        return;
      }
      if owner.Some? && owner.value != "" {
        if file.Unreadable? || file.owner != owner.value {
          return;
        }
      }
      file := Absent;
    }

    method ExitClaimActive(now: real, seconds: Option<real>) returns (active: bool)
      ensures active <==> exists other: string :: !Claim(file, other, now, Ttl(seconds)).1
    {
      active := file.Held? && now - file.at < Ttl(seconds);
      if file.Held? {
        var other := file.owner + "'";
        assert other != file.owner;
        assert active ==> !Claim(file, other, now, Ttl(seconds)).1;
      }
    }

    /** The named owner is the only one whose claim would succeed; without one, either anybody's
        would, or the claim carries no owner's name. */
    method GetExitClaimOwner(now: real, seconds: Option<real>) returns (owner: Option<string>)
      ensures owner.Some? ==> forall other: string :: Claim(file, other, now, Ttl(seconds)).1 <==> other == owner.value
      ensures owner.None? && !(file.Held? && file.owner == "") ==>
                forall other: string :: Claim(file, other, now, Ttl(seconds)).1
    {
      if !file.Held? || now - file.at >= Ttl(seconds) || file.owner == "" {
        return None;
      }
      return Some(file.owner);
    }
  }
}
