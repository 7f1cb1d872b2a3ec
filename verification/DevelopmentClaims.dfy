/** The in-memory claim store. */
module DevelopmentClaims {
  import opened GoStrings
  import opened Options
  import opened DevelopmentProtocol

  class DevelopmentClaimStore {
    var bySession: Claims

    constructor ()
      ensures bySession == map[]
    {
      bySession := map[];
    }

    method Reserve(session: GoString, task: GoString, lease: GoString) returns (ok: bool)
      modifies this
      ensures ok <==> session !in old(bySession)
      ensures bySession == Reserved(old(bySession), session, task, lease)
    {
      if session in bySession {
        return false;
      }
      bySession := bySession[session := Claim(task, lease, None, false)];
      return true;
    }

    method Bind(session: GoString, task: GoString, lease: GoString, revision: GoString) returns (ok: bool)
      modifies this
      ensures ok <==> Bindable(old(bySession), session, task, lease)
      ensures bySession == Bound(old(bySession), session, task, lease, revision)
    {
      if session !in bySession {
        return false;
      }
      var claim := bySession[session];
      if claim.task != task || !SameLease(claim.lease, lease) || claim.revision.Some? {
        return false;
      }
      bySession := bySession[session := claim.(revision := Some(revision))];
      return true;
    }

    method Begin(session: GoString, task: GoString, lease: GoString) returns (revision: Option<GoString>)
      modifies this
      ensures revision.Some? <==> Beginnable(old(bySession), session, task, lease)
      ensures revision.Some? ==> revision == old(bySession)[session].revision
      ensures bySession == Begun(old(bySession), session, task, lease)
    {
      if session !in bySession {
        return None;
      }
      var claim := bySession[session];
      if claim.task != task || claim.revision.None? || claim.finishing || !SameLease(claim.lease, lease) {
        return None;
      }
      bySession := bySession[session := claim.(finishing := true)];
      return claim.revision;
    }

    method Retry(session: GoString, task: GoString, lease: GoString)
      modifies this
      ensures bySession == Retried(old(bySession), session, task, lease)
    {
      if session !in bySession || bySession[session].task != task || !SameLease(bySession[session].lease, lease) {
        return;
      }
      bySession := bySession[session := bySession[session].(finishing := false)];
    }

    method Release(session: GoString, task: GoString, lease: GoString)
      modifies this
      ensures bySession == Released(old(bySession), session, task, lease)
    {
      if session in bySession && bySession[session].task == task && SameLease(bySession[session].lease, lease) {
        bySession := bySession - {session};
      }
    }
  }
}
