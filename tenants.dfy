/** `property.tenant`: the two uniqueness constraints, the statistics over a
    tenant's agreements and collections, the overriding `write` that pushes
    contact details onto the linked `res.partner`, the status actions and the
    display name. */
module Tenants {
  import opened Common
  import opened Calendar
  import opened Schema
  import opened Collections

  // Uniqueness of ID/passport number and of mobile number (each only when set).

  predicate PassportClash(ts: seq<Tenant>, i: nat, j: nat)
    requires i < |ts| && j < |ts|
  {
    i != j && ts[i].idPassport != "" && ts[j].idPassport == ts[i].idPassport
  }

  /** `_check_id_passport_unique` for record `id`. */
  function CheckIdPassportUnique(ts: seq<Tenant>, id: nat): (o: Outcome)
    requires id < |ts|
    ensures o.Fail? <==> exists j :: 0 <= j < |ts| && PassportClash(ts, id, j)
    ensures o.Fail? ==> o.error == ValidationError("ID/Passport number must be unique!")
  {
    if exists j :: 0 <= j < |ts| && PassportClash(ts, id, j) then
      Fail(ValidationError("ID/Passport number must be unique!"))
    else Pass
  }

  predicate PassportsUnique(ts: seq<Tenant>)
  {
    forall i, j :: 0 <= i < j < |ts| && ts[i].idPassport != "" ==> ts[i].idPassport != ts[j].idPassport
  }

  lemma CheckIdPassportUniqueSpec(ts: seq<Tenant>)
    ensures (forall id :: 0 <= id < |ts| ==> CheckIdPassportUnique(ts, id).Pass?) <==> PassportsUnique(ts)
  {
    if forall id :: 0 <= id < |ts| ==> CheckIdPassportUnique(ts, id).Pass? {
      forall i, j | 0 <= i < j < |ts| && ts[i].idPassport != "" ensures ts[i].idPassport != ts[j].idPassport
      {
        assert CheckIdPassportUnique(ts, i).Pass?;
        assert !PassportClash(ts, i, j);
      }
    }
    if PassportsUnique(ts) {
      forall id | 0 <= id < |ts| ensures CheckIdPassportUnique(ts, id).Pass?
      {
        forall j | 0 <= j < |ts| ensures !PassportClash(ts, id, j)
        {
          if id < j && ts[id].idPassport != "" {
            assert ts[id].idPassport != ts[j].idPassport;
          } else if j < id && ts[j].idPassport != "" {
            assert ts[j].idPassport != ts[id].idPassport;
          }
        }
      }
    }
  }

  predicate MobileClash(ts: seq<Tenant>, i: nat, j: nat)
    requires i < |ts| && j < |ts|
  {
    i != j && ts[i].mobile != "" && ts[j].mobile == ts[i].mobile
  }

  /** `_check_mobile_unique` for record `id`. */
  function CheckMobileUnique(ts: seq<Tenant>, id: nat): (o: Outcome)
    requires id < |ts|
    ensures o.Fail? <==> exists j :: 0 <= j < |ts| && MobileClash(ts, id, j)
    ensures o.Fail? ==> o.error == ValidationError("Mobile number must be unique!")
  {
    if exists j :: 0 <= j < |ts| && MobileClash(ts, id, j) then
      Fail(ValidationError("Mobile number must be unique!"))
    else Pass
  }

  predicate MobilesUnique(ts: seq<Tenant>)
  {
    forall i, j :: 0 <= i < j < |ts| && ts[i].mobile != "" ==> ts[i].mobile != ts[j].mobile
  }

  lemma CheckMobileUniqueSpec(ts: seq<Tenant>)
    ensures (forall id :: 0 <= id < |ts| ==> CheckMobileUnique(ts, id).Pass?) <==> MobilesUnique(ts)
  {
    if forall id :: 0 <= id < |ts| ==> CheckMobileUnique(ts, id).Pass? {
      forall i, j | 0 <= i < j < |ts| && ts[i].mobile != "" ensures ts[i].mobile != ts[j].mobile
      {
        assert CheckMobileUnique(ts, i).Pass?;
        assert !MobileClash(ts, i, j);
      }
    }
    if MobilesUnique(ts) {
      forall id | 0 <= id < |ts| ensures CheckMobileUnique(ts, id).Pass?
      {
        forall j | 0 <= j < |ts| ensures !MobileClash(ts, id, j)
        {
          if id < j && ts[id].mobile != "" {
            assert ts[id].mobile != ts[j].mobile;
          } else if j < id && ts[j].mobile != "" {
            assert ts[j].mobile != ts[id].mobile;
          }
        }
      }
    }
  }

  // Statistics.

  /** The agreements of tenant `t` (`agreement_ids`) among the first `n`. */
  function AgreementCount(agreements: seq<Agreement>, t: nat, n: nat): (c: nat)
    requires n <= |agreements|
    ensures c <= n
  {
    if n == 0 then 0 else AgreementCount(agreements, t, n - 1) + (if agreements[n - 1].tenant == t then 1 else 0)
  }

  /** The ids among the first `n` of the agreements of tenant `t`. */
  function AgreementIds(agreements: seq<Agreement>, t: nat, n: nat): set<nat>
    requires n <= |agreements|
  {
    set i: nat | i < n && agreements[i].tenant == t
  }

  /** `total_agreements_count` is the number of the tenant's agreements. */
  lemma {:induction false} AgreementCountIsAgreementIds(agreements: seq<Agreement>, t: nat, n: nat)
    requires n <= |agreements|
    ensures AgreementCount(agreements, t, n) == |AgreementIds(agreements, t, n)|
  {
    if n > 0 {
      AgreementCountIsAgreementIds(agreements, t, n - 1);
      var before := AgreementIds(agreements, t, n - 1);
      if agreements[n - 1].tenant == t {
        assert AgreementIds(agreements, t, n) == before + {n - 1};
        assert n - 1 !in before;
      } else {
        assert AgreementIds(agreements, t, n) == before;
      }
    }
  }

  /** Those of them in state active. */
  function ActiveAgreementCount(agreements: seq<Agreement>, t: nat, n: nat): (c: nat)
    requires n <= |agreements|
  {
    if n == 0 then 0
    else ActiveAgreementCount(agreements, t, n - 1) +
         (if agreements[n - 1].tenant == t && agreements[n - 1].state == AgreementState.Active then 1 else 0)
  }

  /** `_compute_agreement_stats`. */
  function TotalAgreementsCount(agreements: seq<Agreement>, t: nat): nat
  {
    AgreementCount(agreements, t, |agreements|)
  }

  function ActiveAgreementsCount(agreements: seq<Agreement>, t: nat): nat
  {
    ActiveAgreementCount(agreements, t, |agreements|)
  }

  /** `tenant.agreement_ids.filtered(lambda a: a.state == 'active')` is non-empty. */
  predicate HasActiveAgreement(agreements: seq<Agreement>, t: nat)
  {
    exists k :: 0 <= k < |agreements| && agreements[k].tenant == t && agreements[k].state == AgreementState.Active
  }

  /** The active count is at most the total, and is zero exactly when the
      tenant has no active agreement. */
  lemma {:induction false} AgreementStats(agreements: seq<Agreement>, t: nat, n: nat)
    requires n <= |agreements|
    ensures ActiveAgreementCount(agreements, t, n) <= AgreementCount(agreements, t, n)
    ensures ActiveAgreementCount(agreements, t, n) == 0 <==>
              forall k :: 0 <= k < n && agreements[k].tenant == t ==> agreements[k].state != AgreementState.Active
  {
    if n > 0 {
      AgreementStats(agreements, t, n - 1);
    }
  }

  lemma ActiveCountZeroSpec(agreements: seq<Agreement>, t: nat)
    ensures ActiveAgreementsCount(agreements, t) == 0 <==> !HasActiveAgreement(agreements, t)
    ensures ActiveAgreementsCount(agreements, t) <= TotalAgreementsCount(agreements, t)
  {
    AgreementStats(agreements, t, |agreements|);
  }

  /** `_compute_payment_stats`: all linked collections, whatever their status. */
  function TotalPaid(cs: seq<Collection>, t: nat): Money
  {
    TotalCollected(OfTenant(cs, t))
  }

  function LastPaymentDate(cs: seq<Collection>, t: nat): (r: Option<Date>)
    ensures r.None? <==> forall i :: 0 <= i < |cs| ==> cs[i].tenant != t
    ensures r.Some? ==> (exists i :: 0 <= i < |cs| && cs[i].tenant == t && cs[i].date == r.value)
    ensures r.Some? ==> forall i :: 0 <= i < |cs| && cs[i].tenant == t ==> cs[i].date <= r.value
  {
    var mine := OfTenant(cs, t);
    var r := LatestDate(mine);
    assert forall i :: 0 <= i < |cs| && cs[i].tenant == t ==> cs[i] in mine;
    assert r.Some? ==> exists k :: 0 <= k < |mine| && mine[k].date == r.value && mine[k] in cs;
    r
  }

  /** `name_get`: "<name> (<mobile>)". */
  function DisplayName(t: Tenant): (s: string)
    ensures |s| == |t.name| + |t.mobile| + 3
    ensures s[..|t.name|] == t.name && s[|t.name|..|t.name| + 2] == " ("
    ensures s[|t.name| + 2..|s| - 1] == t.mobile && s[|s| - 1] == ')'
  {
    t.name + " (" + t.mobile + ")"
  }

  // The overriding `write`.

  /** The `vals` of a write: a field is written when it is present. */
  datatype TenantVals = TenantVals(
    name: Option<string>,
    mobile: Option<string>,
    phone: Option<string>,
    email: Option<string>,
    idPassport: Option<string>,
    status: Option<TenantStatus>,
    currentRoom: Option<Option<nat>>)

  function StatusVals(s: TenantStatus): TenantVals
  {
    TenantVals(None, None, None, None, None, Some(s), None)
  }

  function RoomVals(room: Option<nat>): TenantVals
  {
    TenantVals(None, None, None, None, None, None, Some(room))
  }

  function Pick<T>(v: Option<T>, current: T): T
  {
    if v.Some? then v.value else current
  }

  /** `super().write(vals)` on the tenant record. */
  function Apply(t: Tenant, vals: TenantVals): (q: Tenant)
    ensures q.partner == t.partner && q.createDay == t.createDay
  {
    t.(name := Pick(vals.name, t.name), mobile := Pick(vals.mobile, t.mobile),
       phone := Pick(vals.phone, t.phone), email := Pick(vals.email, t.email),
       idPassport := Pick(vals.idPassport, t.idPassport), status := Pick(vals.status, t.status),
       currentRoom := Pick(vals.currentRoom, t.currentRoom))
  }

  /** The `partner_vals` built after the write: name to name, mobile to phone,
      email to email. */
  datatype PartnerVals = PartnerVals(name: Option<string>, phone: Option<string>, email: Option<string>)

  function SyncVals(vals: TenantVals): (pv: PartnerVals)
    ensures pv == PartnerVals(vals.name, vals.mobile, vals.email)
  {
    var pv := PartnerVals(None, None, None);
    var pv := if vals.name.Some? then pv.(name := vals.name) else pv;
    var pv := if vals.mobile.Some? then pv.(phone := vals.mobile) else pv;
    if vals.email.Some? then pv.(email := vals.email) else pv
  }

  predicate IsEmptySync(pv: PartnerVals)
  {
    pv.name.None? && pv.phone.None? && pv.email.None?
  }

  function ApplyToPartner(p: Partner, pv: PartnerVals): Partner
  {
    p.(name := Pick(pv.name, p.name), phone := Pick(pv.phone, p.phone), email := Pick(pv.email, p.email))
  }

  /** The tenant's `mobile`, `phone` and `email` are related fields of its
      contact, stored and writable: `super().write` passes the written values
      on to the contact. */
  function InverseRelated(p: Partner, vals: TenantVals): Partner
  {
    p.(mobile := Pick(vals.mobile, p.mobile), phone := Pick(vals.phone, p.phone),
       email := Pick(vals.email, p.email))
  }

  /** The contact after the whole write: the related fields' inverse, then
      the `partner_vals` sync. */
  function ContactAfter(p: Partner, vals: TenantVals): Partner
  {
    ApplyToPartner(InverseRelated(p, vals), SyncVals(vals))
  }

  /** The related fields read back from the contact. */
  function Related(t: Tenant, p: Partner): Tenant
  {
    t.(mobile := p.mobile, phone := p.phone, email := p.email)
  }

  predicate MatchesContact(t: Tenant, p: Partner)
  {
    t.mobile == p.mobile && t.phone == p.phone && t.email == p.email
  }

  /** What a write does to the contact: its mobile and email take the written
      ones, its phone the written mobile (the sync overrides the phone the
      related field wrote) or else the written phone, its name the written
      name; a write that touches none of the four leaves the contact as it was. */
  lemma SyncEffect(p: Partner, vals: TenantVals)
    ensures var c := ContactAfter(p, vals);
            c.mobile == (if vals.mobile.Some? then vals.mobile.value else p.mobile) &&
            c.phone == (if vals.mobile.Some? then vals.mobile.value
                        else if vals.phone.Some? then vals.phone.value else p.phone) &&
            c.email == (if vals.email.Some? then vals.email.value else p.email) &&
            c.name == (if vals.name.Some? then vals.name.value else p.name)
    ensures IsEmptySync(SyncVals(vals)) <==> vals.name.None? && vals.mobile.None? && vals.email.None?
    ensures NoContactVals(vals) ==> ContactAfter(p, vals) == p
  {
  }

  /** A write that names none of the contact's fields. */
  predicate NoContactVals(vals: TenantVals)
  {
    vals.name.None? && vals.mobile.None? && vals.phone.None? && vals.email.None?
  }

  /** After a write, a linked tenant reads its mobile, phone and email back
      from the contact, so it agrees with the contact; a written mobile shows
      as both the tenant's mobile and its phone, and the written name is the
      name of both. */
  lemma SyncAgrees(t: Tenant, p: Partner, vals: TenantVals)
    ensures var c := ContactAfter(p, vals);
            var q := Related(Apply(t, vals), c);
            MatchesContact(q, c) && q.name == Pick(vals.name, t.name) &&
            (vals.mobile.Some? ==> q.mobile == vals.mobile.value && q.phone == vals.mobile.value) &&
            (vals.mobile.None? && vals.phone.Some? ==> q.phone == vals.phone.value) &&
            (vals.email.Some? ==> q.email == vals.email.value) &&
            (vals.name.Some? ==> c.name == q.name)
  {
  }

  /** Every tenant linked to contact `p` reads its related fields from `c`. */
  function RefreshLinked(ts: seq<Tenant>, p: nat, c: Partner): (r: seq<Tenant>)
    ensures |r| == |ts|
    ensures forall i :: 0 <= i < |ts| ==> r[i] == if ts[i].partner == Some(p) then Related(ts[i], c) else ts[i]
  {
    seq(|ts|, i requires 0 <= i < |ts| => if ts[i].partner == Some(p) then Related(ts[i], c) else ts[i])
  }

  class TenantRegistry {
    var tenants: seq<Tenant>
    var partners: seq<Partner>

    constructor (tenants0: seq<Tenant>, partners0: seq<Partner>)
      ensures tenants == tenants0 && partners == partners0
    {
      tenants := tenants0;
      partners := partners0;
    }

    /** Every linked contact exists, and a linked tenant's related fields
        show its contact's values. */
    predicate Valid()
      reads this
    {
      forall i :: 0 <= i < |tenants| && tenants[i].partner.Some? ==>
        tenants[i].partner.value < |partners| && MatchesContact(tenants[i], partners[tenants[i].partner.value])
    }

    /** The effective `write`: the tenant is updated; with a contact, the
        related fields and then the sync values are written to the contact,
        and every tenant of that contact reads the related fields back. */
    method Write(id: nat, vals: TenantVals)
      requires Valid() && id < |tenants|
      modifies this`tenants, this`partners
      ensures Valid()
      ensures var t := Apply(old(tenants)[id], vals);
              match t.partner
              case None => tenants == old(tenants)[id := t] && partners == old(partners)
              case Some(p) =>
                var c := ContactAfter(old(partners)[p], vals);
                partners == old(partners)[p := c] && tenants == RefreshLinked(old(tenants)[id := t], p, c)
      ensures NoContactVals(vals) ==>
                tenants == old(tenants)[id := Apply(old(tenants)[id], vals)] && partners == old(partners)
    {
      var t := Apply(tenants[id], vals);
      tenants := tenants[id := t];
      if t.partner.Some? {
        var p := t.partner.value;
        var c := ContactAfter(partners[p], vals);
        ghost var written := tenants;
        partners := partners[p := c];
        tenants := RefreshLinked(tenants, p, c);
        if NoContactVals(vals) {
          forall i | 0 <= i < |tenants| ensures tenants[i] == written[i]
          {
            if written[i].partner == Some(p) {
              assert MatchesContact(old(tenants)[i], c);
            }
          }
        }
      }
    }

    /** `action_activate`, `action_deactivate`, `action_blacklist`: the status
        only, so the contact is left alone. */
    method SetStatus(id: nat, s: TenantStatus)
      requires Valid() && id < |tenants|
      requires s == TenantStatus.Active || s == TenantStatus.Inactive || s == TenantStatus.Blacklisted
      modifies this`tenants, this`partners
      ensures Valid()
      ensures tenants == old(tenants)[id := old(tenants)[id].(status := s)]
      ensures partners == old(partners)
    {
      Write(id, StatusVals(s));
    }
  }
}
