/**
 Tenant rows: quota check, usage, limit changes and soft deletion.
 */
module TenantService {
  import opened Wrappers
  import opened Rows
  import opened Delivery
  import opened Sessions
  import opened CommittedRows

  /** True when the quota leaves room for one more message. */
  method AssertQuota(s: Session, tenantId: Id) returns (ok: bool)
    requires tenantId in s.tenants
    ensures ok <==> s.tenants[tenantId].sentThisMonth < s.tenants[tenantId].monthlyLimit
  {
    ok := !(s.tenants[tenantId].sentThisMonth >= s.tenants[tenantId].monthlyLimit);
  }

  method IncrementUsage(s: Session, tenantId: Id)
    modifies s
    ensures var t := old(s.View());
            s.View() == if tenantId !in t.tenants then t
                        else t.(tenants := t.tenants[tenantId :=
                               t.tenants[tenantId].(sentThisMonth := t.tenants[tenantId].sentThisMonth + 1)])
    ensures s.pending == old(s.pending)
  {
    if tenantId in s.tenants {
      var tenant := s.tenants[tenantId];
      s.tenants := s.tenants[tenantId := tenant.(sentThisMonth := tenant.sentThisMonth + 1)];
    }
  }

  /** Creates a tenant whose slug is new; `encrypt` is the token cipher. */
  method Create(database: Database, r: TenantRequest, encrypt: string -> string) returns (outcome: Outcome<Id>)
    modifies database
    ensures database.View() == AddTenant(old(database.View()), r.(accessToken := encrypt(r.accessToken)))
    ensures outcome.Returned? <==> !SlugTaken(old(database.tenants), r.slug)
    ensures outcome.Returned? ==>
              outcome.result == old(database.nextId)
              && TenantAdded(old(database.View()), database.View(), r, encrypt)
    ensures outcome.Raised? ==> database.View() == old(database.View())
    ensures outcome == Raised(Conflict) <==>
              exists id :: LiveTenant(old(database.tenants), id) && old(database.tenants)[id].slug == r.slug
  {
    var s := new Session(database);
    if exists id :: id in s.tenants && LiveTenant(s.tenants, id) && s.tenants[id].slug == r.slug {
      s.Rollback();
      return Raised(Conflict);
    }
    var tenant := Tenant(r.name, r.slug, r.wabaId, r.phoneNumberId, encrypt(r.accessToken), r.plan, r.monthlyLimit,
                         0, true, None);
    // The flush inserts the row, and the unique column refuses the slug of a deleted tenant.
    if SlugTaken(s.tenants, r.slug) { s.Rollback(); return Raised(ConstraintViolated); }
    AddedColumns(s.View(), r, encrypt);
    s.tenants := s.tenants[s.nextId := tenant];
    outcome := Returned(s.nextId);
    s.nextId := s.nextId + 1;
    s.Commit();
  }

  /** PATCH of a tenant: each field that is present is set, the token encrypted first. */
  method Update(database: Database, tenantId: Id, fields: TenantPatch, encrypt: string -> string) returns (found: bool)
    modifies database
    ensures found <==> LiveTenant(old(database.tenants), tenantId)
    ensures database.View() == PatchTenant(old(database.View()), tenantId, Encrypted(fields, encrypt))
    ensures if found then TenantPatched(old(database.View()), database.View(), tenantId, fields, encrypt)
            else database.View() == old(database.View())
  {
    var s := new Session(database);
    found := LiveTenant(s.tenants, tenantId);
    if !found { s.Rollback(); return; }
    var tenant := SetFields(s.tenants[tenantId], fields, encrypt);
    s.tenants := s.tenants[tenantId := tenant];
    s.Commit();
  }

  /** The loop over the fields, one column at a time. */
  method SetFields(row: Tenant, fields: TenantPatch, encrypt: string -> string) returns (tenant: Tenant)
    ensures tenant == Patched(row, Encrypted(fields, encrypt))
  {
    tenant := row;
    if fields.name.Some? { tenant := tenant.(name := fields.name.value); }
    if fields.isActive.Some? { tenant := tenant.(isActive := fields.isActive.value); }
    if fields.plan.Some? { tenant := tenant.(plan := fields.plan.value); }
    if fields.monthlyLimit.Some? { tenant := tenant.(monthlyLimit := fields.monthlyLimit.value); }
    if fields.accessToken.Some? { tenant := tenant.(accessToken := encrypt(fields.accessToken.value)); }
  }

  function Encrypted(fields: TenantPatch, encrypt: string -> string): TenantPatch {
    fields.(accessToken := if fields.accessToken.Some? then Some(encrypt(fields.accessToken.value)) else None)
  }

  method SoftDelete(database: Database, tenantId: Id, now: Time) returns (found: bool)
    modifies database
    ensures found <==> LiveTenant(old(database.tenants), tenantId)
    ensures database.View() == DeleteTenant(old(database.View()), tenantId, now)
    ensures if found then TenantDeleted(old(database.View()), database.View(), tenantId, now)
            else database.View() == old(database.View())
  {
    var s := new Session(database);
    found := LiveTenant(s.tenants, tenantId);
    if !found { s.Rollback(); return; }
    var tenant := s.tenants[tenantId];
    tenant := tenant.(deletedAt := Some(now));
    tenant := tenant.(isActive := false);
    s.tenants := s.tenants[tenantId := tenant];
    s.Commit();
  }
}
