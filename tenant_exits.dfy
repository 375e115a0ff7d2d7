/** `property.tenant.exit`: a tenant moving out. The settlement arithmetic,
    the reference, and the completion cascade through the agreement, the room
    and the tenant. */
module TenantExits {
  import opened Common
  import opened Calendar
  import opened Schema
  import opened Rooms
  import opened Tenants
  import opened Agreements

  /** `_compute_name`: "EXIT/<tenant name>/<yyyymmdd>"; tenant and exit date
      are required, so the "New Exit" fallback is never taken by a saved
      record. */
  function ExitName(tenantName: string, exitDate: Date): (s: string)
    ensures |s| == 5 + |tenantName| + 1 + |YmdText(exitDate)| && |YmdText(exitDate)| >= 8
    ensures s[..5] == "EXIT/" && s[5..5 + |tenantName|] == tenantName && s[5 + |tenantName|] == '/'
    ensures s[6 + |tenantName|..] == YmdText(exitDate)
  {
    ExitText(tenantName, YmdText(exitDate))
  }

  /** The name built from the tenant name and an already formatted date. */
  function ExitText(tenantName: string, ymd: string): (s: string)
    ensures |s| == 5 + |tenantName| + 1 + |ymd|
    ensures s[..5] == "EXIT/" && s[5..5 + |tenantName|] == tenantName && s[5 + |tenantName|] == '/'
    ensures s[6 + |tenantName|..] == ymd
  {
    var head := "EXIT/" + tenantName;
    assert head[5..] == tenantName;
    head + ("/" + ymd)
  }

  /** `_compute_settlement`: what is paid back once the pending dues and the
      damages are taken off the refund; negative when the tenant owes. */
  function FinalSettlement(e: TenantExit): (r: Money)
    ensures r + e.pendingDues + e.damagesDeduction == e.depositRefund
  {
    e.depositRefund - e.pendingDues - e.damagesDeduction
  }

  /** With nothing owed and no damages the whole refund is paid out; every
      unit of dues or damages lowers the settlement by one unit. */
  lemma SettlementDeductions(e: TenantExit, extra: Money)
    ensures e.pendingDues == 0.0 && e.damagesDeduction == 0.0 ==> FinalSettlement(e) == e.depositRefund
    ensures FinalSettlement(e.(damagesDeduction := e.damagesDeduction + extra)) == FinalSettlement(e) - extra
    ensures FinalSettlement(e.(pendingDues := e.pendingDues + extra)) == FinalSettlement(e) - extra
    ensures e.pendingDues >= 0.0 && e.damagesDeduction >= 0.0 ==> FinalSettlement(e) <= e.depositRefund
  {
  }

  /** After agreement `aid` is terminated, tenant `t` still has an active
      agreement exactly when one other than `aid` was active. */
  lemma TerminatedLeavesOthers(agreements: seq<Agreement>, aid: nat, t: nat)
    requires aid < |agreements|
    ensures var after := agreements[aid := agreements[aid].(state := AgreementState.Terminated)];
            HasActiveAgreement(after, t) <==>
              exists k :: 0 <= k < |agreements| && k != aid && agreements[k].tenant == t &&
                          agreements[k].state == AgreementState.Active
  {
    var after := agreements[aid := agreements[aid].(state := AgreementState.Terminated)];
    if HasActiveAgreement(after, t) {
      var k :| 0 <= k < |after| && after[k].tenant == t && after[k].state == AgreementState.Active;
      assert k != aid && agreements[k] == after[k];
    }
    if exists k :: 0 <= k < |agreements| && k != aid && agreements[k].tenant == t &&
                   agreements[k].state == AgreementState.Active {
      var k :| 0 <= k < |agreements| && k != aid && agreements[k].tenant == t &&
               agreements[k].state == AgreementState.Active;
      assert after[k] == agreements[k];
    }
  }

  /** `action_archive`: only the status changes. */
  function ArchivedExit(e: TenantExit): (r: TenantExit)
    ensures r.status == ExitStatus.Archived && r.(status := e.status) == e
  {
    e.(status := ExitStatus.Archived)
  }

  /** The exit table. */
  class ExitTable {
    var rows: seq<TenantExit>

    constructor (rows0: seq<TenantExit>)
      ensures rows == rows0
    {
      rows := rows0;
    }

    /** `action_complete_exit`: the exit is completed, its agreement is
        terminated (the room becomes vacant with its links cleared, the
        agreement's tenant loses its room), and the exit's tenant becomes
        inactive when none of its agreements is still active, that is, when
        none other than the terminated one was. */
    method CompleteExit(id: nat, agreements: AgreementTable, rooms: RoomTable, tenants: TenantRegistry)
      requires id < |rows| && rows[id].agreement < |agreements.rows| && rows[id].tenant < |tenants.tenants|
      requires agreements.rows[rows[id].agreement].room < |rooms.rows|
      requires agreements.rows[rows[id].agreement].tenant < |tenants.tenants|
      requires tenants.Valid()
      modifies this`rows, agreements`rows, rooms`rows, tenants`tenants, tenants`partners
      ensures tenants.Valid()
      ensures rows == old(rows)[id := old(rows)[id].(status := ExitStatus.Completed)]
      ensures var e := old(rows)[id];
              agreements.rows == old(agreements.rows)[e.agreement := old(agreements.rows)[e.agreement].(state := AgreementState.Terminated)]
      ensures var a := old(agreements.rows)[old(rows)[id].agreement];
              rooms.rows == old(rooms.rows)[a.room := Vacated(old(rooms.rows)[a.room])] &&
              IsAvailable(rooms.rows[a.room]) && LinksAgree(rooms.rows[a.room])
      ensures var e := old(rows)[id];
              var a := old(agreements.rows)[e.agreement];
              var cleared := old(tenants.tenants)[a.tenant := old(tenants.tenants)[a.tenant].(currentRoom := None)];
              tenants.tenants == if HasActiveAgreement(agreements.rows, e.tenant) then cleared
                                 else cleared[e.tenant := cleared[e.tenant].(status := TenantStatus.Inactive)]
      ensures tenants.partners == old(tenants.partners)
      ensures var e := old(rows)[id];
              var othersActive := exists k :: 0 <= k < |old(agreements.rows)| && k != e.agreement &&
                                    old(agreements.rows)[k].tenant == e.tenant &&
                                    old(agreements.rows)[k].state == AgreementState.Active;
              tenants.tenants[e.tenant].status ==
                if othersActive then old(tenants.tenants)[e.tenant].status else TenantStatus.Inactive
    {
      var e := rows[id];
      TerminatedLeavesOthers(agreements.rows, e.agreement, e.tenant);
      rows := rows[id := e.(status := ExitStatus.Completed)];
      agreements.Terminate(e.agreement, rooms, tenants);
      if !HasActiveAgreement(agreements.rows, e.tenant) {
        tenants.SetStatus(e.tenant, TenantStatus.Inactive);
      }
    }

    method Archive(id: nat)
      requires id < |rows|
      modifies this`rows
      ensures rows == old(rows)[id := ArchivedExit(old(rows)[id])]
    {
      rows := rows[id := ArchivedExit(rows[id])];
    }
  }
}
