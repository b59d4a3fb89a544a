/** Provisioning a site that belongs to another tenant: every row of the site is relabelled, table
    after table, while foreign keys are deferred to the commit. */
module TenantMove {
  import opened Wrappers

  type Id = string

  /** The tables with a tenant and a site column, in the order in which they are updated. */
  datatype Table =
    | Sessions | Commands | Messages | Events | Participants | Runs | Handoffs | Inputs
    | Conversations | Principals | Widgets | Audit

  /** `parent` is the row that the foreign key points at, `unique` what is unique within a site
      (the identifier where nothing else is); `body` is everything else. */
  datatype Row = Row(tenantId: Id, siteId: Id, parent: Id, unique: string, body: string)
  datatype Site = Site(tenantId: Id, siteKey: string, body: string)
  datatype Registry = Registry(tenants: map<Id, string>, sites: map<Id, Site>, tables: map<Table, map<Id, Row>>)

  datatype Config = Config(
    tenantId: Id, tenantName: string, siteId: Id, siteKey: string, siteBody: string,
    widgetId: Id, widgetKey: string, widgetBody: string)

  datatype Error = SiteIdTaken | WidgetKeyTaken | NoSuchSite

  function Rows(tables: map<Table, map<Id, Row>>, t: Table): map<Id, Row> { if t in tables then tables[t] else map[] }

  /** The table that the scoped foreign key of `t` points at; `None` for the sites themselves or no key at all. */
  function ParentTable(t: Table): Option<Table> {
    match t
    case Sessions | Conversations => Some(Principals)
    case Participants | Events | Runs => Some(Conversations)
    case Messages => Some(Participants)
    case Handoffs | Inputs => Some(Runs)
    case _ => None
  }

  // ---------------------------------------------------------------- what is kept on commit

  /** The row's site exists and belongs to the row's tenant. */
  predicate InScope(sites: map<Id, Site>, row: Row) { row.siteId in sites && sites[row.siteId].tenantId == row.tenantId }

  predicate HasParent(parents: map<Id, Row>, row: Row) {
    row.parent in parents && parents[row.parent].tenantId == row.tenantId && parents[row.parent].siteId == row.siteId
  }

  predicate SameUnique(a: Row, b: Row) { a.tenantId == b.tenantId && a.siteId == b.siteId && a.unique == b.unique }

  predicate Unique(rows: map<Id, Row>) { forall a <- rows, b <- rows :: SameUnique(rows[a], rows[b]) ==> a == b }

  predicate AllInScope(sites: map<Id, Site>, rows: map<Id, Row>) { forall r <- rows :: InScope(sites, rows[r]) }

  predicate AllHaveParent(parents: map<Id, Row>, rows: map<Id, Row>) { forall r <- rows :: HasParent(parents, rows[r]) }

  predicate SitesFit(tenants: map<Id, string>, sites: map<Id, Site>) {
    && (forall s <- sites :: sites[s].tenantId in tenants)
    && (forall s <- sites, u <- sites :: sites[s].siteKey == sites[u].siteKey ==> s == u)
  }

  predicate TableFits(sites: map<Id, Site>, tables: map<Table, map<Id, Row>>, t: Table) {
    t != Audit ==>
      && Unique(Rows(tables, t)) && AllInScope(sites, Rows(tables, t))
      && (ParentTable(t).Some? ==> AllHaveParent(Rows(tables, ParentTable(t).value), Rows(tables, t)))
  }

  /** Every scoped foreign key and unique constraint. The audit trail has neither. */
  predicate Coherent(reg: Registry) {
    SitesFit(reg.tenants, reg.sites) && forall t: Table :: TableFits(reg.sites, reg.tables, t)
  }

  // ---------------------------------------------------------------- relabelling

  function RelabelledRow(row: Row, old_: Id, site: Id, new_: Id): Row {
    if row.tenantId == old_ && row.siteId == site then row.(tenantId := new_) else row
  }

  /** `update … set tenant_id = new where tenant_id = old and site_id = site` */
  function Relabelled(rows: map<Id, Row>, old_: Id, site: Id, new_: Id): map<Id, Row> {
    map r | r in rows :: RelabelledRow(rows[r], old_, site, new_)
  }

  function RelabelledAll(tables: map<Table, map<Id, Row>>, old_: Id, site: Id, new_: Id): map<Table, map<Id, Row>> {
    map t | t in tables :: Relabelled(tables[t], old_, site, new_)
  }

  /** A site's rows all carry its tenant, so relabelling them cannot meet another row of the site. */
  lemma RelabelKeepsUnique(sites: map<Id, Site>, rows: map<Id, Row>, site: Id, new_: Id)
    requires Unique(rows) && AllInScope(sites, rows) && site in sites
    ensures Unique(Relabelled(rows, sites[site].tenantId, site, new_))
  {
    var after := Relabelled(rows, sites[site].tenantId, site, new_);
    forall a, b | a in after && b in after && SameUnique(after[a], after[b]) ensures a == b {
      assert InScope(sites, rows[a]) && InScope(sites, rows[b]);
      assert SameUnique(rows[a], rows[b]);
    }
  }

  lemma RelabelKeepsScope(sites: map<Id, Site>, rows: map<Id, Row>, site: Id, moved: Site)
    requires AllInScope(sites, rows) && site in sites
    ensures AllInScope(sites[site := moved], Relabelled(rows, sites[site].tenantId, site, moved.tenantId))
  {
    forall r | r in rows ensures InScope(sites[site := moved], RelabelledRow(rows[r], sites[site].tenantId, site, moved.tenantId)) {
      assert InScope(sites, rows[r]);
    }
  }

  lemma RelabelKeepsParents(parents: map<Id, Row>, rows: map<Id, Row>, old_: Id, site: Id, new_: Id)
    requires AllHaveParent(parents, rows)
    ensures AllHaveParent(Relabelled(parents, old_, site, new_), Relabelled(rows, old_, site, new_))
  {
    forall r | r in rows ensures HasParent(Relabelled(parents, old_, site, new_), RelabelledRow(rows[r], old_, site, new_)) {
      assert HasParent(parents, rows[r]);
    }
  }

  lemma RelabelTable(tables: map<Table, map<Id, Row>>, old_: Id, site: Id, new_: Id, t: Table)
    ensures Rows(RelabelledAll(tables, old_, site, new_), t) == Relabelled(Rows(tables, t), old_, site, new_)
  {}

  lemma TableAfterMove(sites: map<Id, Site>, tables: map<Table, map<Id, Row>>, site: Id, moved: Site, t: Table)
    requires site in sites && (forall u: Table :: TableFits(sites, tables, u))
    ensures TableFits(sites[site := moved], RelabelledAll(tables, sites[site].tenantId, site, moved.tenantId), t)
  {
    var old_ := sites[site].tenantId;
    RelabelTable(tables, old_, site, moved.tenantId, t);
    assert TableFits(sites, tables, t);
    if t != Audit {
      RelabelKeepsUnique(sites, Rows(tables, t), site, moved.tenantId);
      RelabelKeepsScope(sites, Rows(tables, t), site, moved);
      if ParentTable(t).Some? {
        RelabelTable(tables, old_, site, moved.tenantId, ParentTable(t).value);
        RelabelKeepsParents(Rows(tables, ParentTable(t).value), Rows(tables, t), old_, site, moved.tenantId);
      }
    }
  }

  /** Back again, the rows are as they were. */
  lemma MovingBackRestores(sites: map<Id, Site>, rows: map<Id, Row>, site: Id, new_: Id)
    requires AllInScope(sites, rows) && site in sites
    ensures Relabelled(Relabelled(rows, sites[site].tenantId, site, new_), new_, site, sites[site].tenantId) == rows
  {
    forall r | r in rows
      ensures RelabelledRow(RelabelledRow(rows[r], sites[site].tenantId, site, new_), new_, site, sites[site].tenantId) == rows[r]
    {
      assert InScope(sites, rows[r]);
    }
  }

  // ---------------------------------------------------------------- provisioning

  ghost function SiteWithKey(sites: map<Id, Site>, key: string): (found: Option<Id>)
    ensures found.Some? ==> found.value in sites && sites[found.value].siteKey == key
    ensures found.None? ==> forall s <- sites :: sites[s].siteKey != key
  {
    if exists s :: s in sites && sites[s].siteKey == key then
      var s :| s in sites && sites[s].siteKey == key;
      Some(s)
    else None
  }

  function WidgetRow(config: Config): Row { Row(config.tenantId, config.siteId, "", config.widgetKey, config.widgetBody) }

  function SiteRow(config: Config): Site { Site(config.tenantId, config.siteKey, config.siteBody) }

  predicate KeyTaken(widgets: map<Id, Row>, config: Config) {
    exists w <- widgets :: w != config.widgetId && SameUnique(widgets[w], WidgetRow(config))
  }

  /** The registry before the widget is written: the tenant named, the site moved or made. */
  ghost function SiteProvisioned(reg: Registry, config: Config): Result<Registry, Error> {
    var tenants := reg.tenants[config.tenantId := config.tenantName];
    match SiteWithKey(reg.sites, config.siteKey)
    case Some(e) =>
      var tables := if reg.sites[e].tenantId != config.tenantId
        then RelabelledAll(reg.tables, reg.sites[e].tenantId, e, config.tenantId) else reg.tables;
      Success(Registry(tenants, reg.sites[e := SiteRow(config)], tables))
    case None =>
      if config.siteId in reg.sites then Failure(SiteIdTaken)
      else Success(Registry(tenants, reg.sites[config.siteId := SiteRow(config)], reg.tables))
  }

  /** The whole transaction; on `Failure` it is rolled back. */
  ghost function Provision(reg: Registry, config: Config): Result<Registry, Error> {
    match SiteProvisioned(reg, config)
    case Failure(e) => Failure(e)
    case Success(moved) =>
      if KeyTaken(Rows(moved.tables, Widgets), config) then Failure(WidgetKeyTaken)
      else if !InScope(moved.sites, WidgetRow(config)) then Failure(NoSuchSite)
      else Success(moved.(tables := moved.tables[Widgets := Rows(moved.tables, Widgets)[config.widgetId := WidgetRow(config)]]))
  }

  lemma RelabelToSelf(tables: map<Table, map<Id, Row>>, tenant: Id, site: Id)
    ensures RelabelledAll(tables, tenant, site, tenant) == tables
  {
    forall t | t in tables ensures Relabelled(tables[t], tenant, site, tenant) == tables[t] {
      forall r | r in tables[t] ensures RelabelledRow(tables[t][r], tenant, site, tenant) == tables[t][r] {}
    }
  }

  lemma NewSiteFits(sites: map<Id, Site>, tables: map<Table, map<Id, Row>>, s: Id, site: Site, t: Table)
    requires s !in sites && TableFits(sites, tables, t)
    ensures TableFits(sites[s := site], tables, t)
  {
    if t != Audit {
      forall r | r in Rows(tables, t) ensures InScope(sites[s := site], Rows(tables, t)[r]) {
        assert InScope(sites, Rows(tables, t)[r]);
      }
    }
  }

  lemma SiteProvisionedFits(reg: Registry, config: Config)
    requires Coherent(reg) && SiteProvisioned(reg, config).Success?
    ensures Coherent(SiteProvisioned(reg, config).value)
  {
    var next := SiteProvisioned(reg, config).value;
    var found := SiteWithKey(reg.sites, config.siteKey);
    forall t: Table ensures TableFits(next.sites, next.tables, t) {
      if found.Some? {
        RelabelToSelf(reg.tables, config.tenantId, found.value);
        TableAfterMove(reg.sites, reg.tables, found.value, SiteRow(config), t);
      } else {
        NewSiteFits(reg.sites, reg.tables, config.siteId, SiteRow(config), t);
      }
    }
  }

  lemma WidgetFits(reg: Registry, config: Config, t: Table)
    requires Coherent(reg) && !KeyTaken(Rows(reg.tables, Widgets), config) && InScope(reg.sites, WidgetRow(config))
    ensures TableFits(reg.sites, reg.tables[Widgets := Rows(reg.tables, Widgets)[config.widgetId := WidgetRow(config)]], t)
  {
    assert TableFits(reg.sites, reg.tables, t);
    var widgets := Rows(reg.tables, Widgets)[config.widgetId := WidgetRow(config)];
    var tables := reg.tables[Widgets := widgets];
    if t == Widgets {
      assert AllInScope(reg.sites, widgets);
      assert Unique(widgets);
    } else {
      assert Rows(tables, t) == Rows(reg.tables, t);
      assert ParentTable(t).Some? ==> ParentTable(t).value != Widgets && Rows(tables, ParentTable(t).value) == Rows(reg.tables, ParentTable(t).value);
    }
  }

  /** When the transaction commits, every scoped foreign key and every unique constraint holds. */
  lemma ProvisionKeepsCoherent(reg: Registry, config: Config)
    requires Coherent(reg) && Provision(reg, config).Success?
    ensures Coherent(Provision(reg, config).value)
  {
    SiteProvisionedFits(reg, config);
    forall t: Table ensures TableFits(Provision(reg, config).value.sites, Provision(reg, config).value.tables, t) {
      WidgetFits(SiteProvisioned(reg, config).value, config, t);
    }
  }

  /** The row as it should be once the site with the configured key carries the configured tenant. */
  ghost function MovedRow(sites: map<Id, Site>, config: Config, row: Row): Row {
    if Some(row.siteId) == SiteWithKey(sites, config.siteKey) then row.(tenantId := config.tenantId) else row
  }

  lemma RowsOfMovedSite(reg: Registry, config: Config, t: Table, r: Id)
    requires TableFits(reg.sites, reg.tables, t) && SiteProvisioned(reg, config).Success? && t != Audit
    ensures var before := Rows(reg.tables, t); var after := Rows(SiteProvisioned(reg, config).value.tables, t);
      (r in after <==> r in before) && (r in before ==> after[r] == MovedRow(reg.sites, config, before[r]))
  {
    var before := Rows(reg.tables, t);
    if r in before {
      assert InScope(reg.sites, before[r]);
    }
    var found := SiteWithKey(reg.sites, config.siteKey);
    if found.Some? {
      RelabelTable(reg.tables, reg.sites[found.value].tenantId, found.value, config.tenantId, t);
    }
  }

  lemma WidgetIsAllThatIsWritten(reg: Registry, config: Config, t: Table, r: Id)
    requires Provision(reg, config).Success? && !(t == Widgets && r == config.widgetId)
    ensures var before := Rows(SiteProvisioned(reg, config).value.tables, t); var after := Rows(Provision(reg, config).value.tables, t);
      (r in after <==> r in before) && (r in before ==> after[r] == before[r])
  {}

  /** Moving is a pure relabelling: no row comes or goes, the rows of the site with the given key carry
      the new tenant and are otherwise as before, and all other rows are untouched; only the widget
      with the given identifier is written anew. */
  lemma MoveIsPureRelabelling(reg: Registry, config: Config, t: Table, r: Id)
    requires Coherent(reg) && Provision(reg, config).Success? && t != Audit && !(t == Widgets && r == config.widgetId)
    ensures var before := Rows(reg.tables, t); var after := Rows(Provision(reg, config).value.tables, t);
      (r in after <==> r in before) && (r in before ==> after[r] == MovedRow(reg.sites, config, before[r]))
  {
    RowsOfMovedSite(reg, config, t, r);
    WidgetIsAllThatIsWritten(reg, config, t, r);
  }

  /** The site that the transaction is about: the one with the configured key, or a new one. */
  ghost function SiteOf(reg: Registry, config: Config): Id {
    match SiteWithKey(reg.sites, config.siteKey)
    case Some(s) => s
    case None => config.siteId
  }

  /** What a commit leaves: the tenant under its configured name, the site and the widget as configured, and
      every other tenant, site and widget of another identifier as it was. */
  lemma CommittedRows(reg: Registry, config: Config)
    requires Provision(reg, config).Success?
    ensures var next := Provision(reg, config).value; var s, widgets := SiteOf(reg, config), Rows(next.tables, Widgets);
      && next.tenants.Keys == reg.tenants.Keys + {config.tenantId} && next.tenants[config.tenantId] == config.tenantName
      && (forall t <- reg.tenants :: t != config.tenantId ==> next.tenants[t] == reg.tenants[t])
      && next.sites.Keys == reg.sites.Keys + {s}
      && next.sites[s].tenantId == config.tenantId && next.sites[s].siteKey == config.siteKey && next.sites[s].body == config.siteBody
      && (forall u <- reg.sites :: u != s ==> next.sites[u] == reg.sites[u])
      && config.widgetId in widgets
      && widgets[config.widgetId].tenantId == config.tenantId && widgets[config.widgetId].siteId == config.siteId
      && widgets[config.widgetId].unique == config.widgetKey && widgets[config.widgetId].body == config.widgetBody
      && widgets.Keys == Rows(reg.tables, Widgets).Keys + {config.widgetId}
  {
    var moved := SiteProvisioned(reg, config).value;
    var found := SiteWithKey(reg.sites, config.siteKey);
    assert Rows(moved.tables, Widgets).Keys == Rows(reg.tables, Widgets).Keys by {
      if found.Some? { RelabelTable(reg.tables, reg.sites[found.value].tenantId, found.value, config.tenantId, Widgets); }
    }
  }

  /** The audit trail, which has no foreign keys, moves too: the site's rows under its former tenant. */
  lemma AuditMoves(reg: Registry, config: Config, r: Id)
    requires Provision(reg, config).Success? && SiteWithKey(reg.sites, config.siteKey).Some?
    ensures var before := Rows(reg.tables, Audit); var after := Rows(Provision(reg, config).value.tables, Audit);
      var s := SiteOf(reg, config);
      (r in after <==> r in before)
      && (r in before ==>
            after[r] == if before[r].siteId == s && before[r].tenantId == reg.sites[s].tenantId then before[r].(tenantId := config.tenantId) else before[r])
  {
    var s := SiteOf(reg, config);
    RelabelTable(reg.tables, reg.sites[s].tenantId, s, config.tenantId, Audit);
    WidgetIsAllThatIsWritten(reg, config, Audit, r);
  }

  /** What the transaction needs: an unused site identifier for a new key; for a known key the site of that
      key or another of the same tenant; and no other widget of that site under the widget's key. */
  lemma ProvisionSucceedsIff(reg: Registry, config: Config)
    requires Coherent(reg)
    ensures var found := SiteWithKey(reg.sites, config.siteKey); var widgets := Rows(reg.tables, Widgets);
      Provision(reg, config).Success? <==>
        && (found.None? ==> config.siteId !in reg.sites)
        && (found.Some? && found.value != config.siteId ==>
              config.siteId in reg.sites && reg.sites[config.siteId].tenantId == config.tenantId)
        && forall w <- widgets :: w != config.widgetId ==>
              !(widgets[w].siteId == config.siteId && widgets[w].unique == config.widgetKey)
  {
    var widgets := Rows(reg.tables, Widgets);
    assert TableFits(reg.sites, reg.tables, Widgets);
    forall w | w in widgets ensures InScope(reg.sites, widgets[w]) {}
    if SiteProvisioned(reg, config).Success? && InScope(SiteProvisioned(reg, config).value.sites, WidgetRow(config)) {
      KeyTakenIff(reg, config);
    }
  }

  lemma KeyTakenIff(reg: Registry, config: Config)
    requires Coherent(reg) && SiteProvisioned(reg, config).Success?
    requires InScope(SiteProvisioned(reg, config).value.sites, WidgetRow(config))
    ensures var widgets := Rows(reg.tables, Widgets);
      KeyTaken(Rows(SiteProvisioned(reg, config).value.tables, Widgets), config) <==>
        exists w <- widgets :: w != config.widgetId && widgets[w].siteId == config.siteId && widgets[w].unique == config.widgetKey
  {
    var moved := SiteProvisioned(reg, config).value;
    var widgets, after := Rows(reg.tables, Widgets), Rows(moved.tables, Widgets);
    SiteProvisionedFits(reg, config);
    assert TableFits(moved.sites, moved.tables, Widgets) && TableFits(reg.sites, reg.tables, Widgets);
    forall w: Id
      ensures w in after <==> w in widgets
      ensures w in widgets ==>
        (SameUnique(after[w], WidgetRow(config)) <==> widgets[w].siteId == config.siteId && widgets[w].unique == config.widgetKey)
    {
      hide SiteProvisioned, Coherent;
      RowsOfMovedSite(reg, config, Widgets, w);
      if w in widgets {
        assert InScope(moved.sites, after[w]);
      }
    }
  }

  predicate IsWidgetOf(config: Config, row: Row) {
    row.tenantId == config.tenantId && row.siteId == config.siteId && row.unique == config.widgetKey
  }

  /** And why it fails, in the order of the statements. */
  lemma FailureReason(reg: Registry, config: Config)
    requires Coherent(reg) && Provision(reg, config).Failure?
    ensures var widgets := Rows(reg.tables, Widgets);
      Provision(reg, config).error ==
        if SiteWithKey(reg.sites, config.siteKey).None? && config.siteId in reg.sites then SiteIdTaken
        else if exists w <- widgets :: w != config.widgetId && IsWidgetOf(config, MovedRow(reg.sites, config, widgets[w])) then WidgetKeyTaken
        else NoSuchSite
  {
    if SiteProvisioned(reg, config).Success? {
      var widgets, after := Rows(reg.tables, Widgets), Rows(SiteProvisioned(reg, config).value.tables, Widgets);
      assert TableFits(reg.sites, reg.tables, Widgets);
      forall w: Id
        ensures w in after <==> w in widgets
        ensures w in widgets ==> (SameUnique(after[w], WidgetRow(config)) <==> IsWidgetOf(config, MovedRow(reg.sites, config, widgets[w])))
      {
        RowsOfMovedSite(reg, config, Widgets, w);
      }
    }
  }

  // ---------------------------------------------------------------- the statements in order

  const ORDER := [Sessions, Commands, Messages, Events, Participants, Runs, Handoffs, Inputs, Conversations, Principals, Widgets, Audit]

  lemma OrderIsComplete()
    ensures forall t: Table :: t in ORDER
    ensures forall i, j :: 0 <= i < j < |ORDER| ==> ORDER[i] != ORDER[j]
  {
    forall t: Table ensures t in ORDER {
      var k := match t
        case Sessions => 0 case Commands => 1 case Messages => 2 case Events => 3 case Participants => 4 case Runs => 5
        case Handoffs => 6 case Inputs => 7 case Conversations => 8 case Principals => 9 case Widgets => 10 case Audit => 11;
      assert ORDER[k] == t;
    }
  }

  function RelabelledSome(tables: map<Table, map<Id, Row>>, done: seq<Table>, old_: Id, site: Id, new_: Id): map<Table, map<Id, Row>> {
    map t | t in tables :: if t in done then Relabelled(tables[t], old_, site, new_) else tables[t]
  }

  lemma NoneThenAll(tables: map<Table, map<Id, Row>>, old_: Id, site: Id, new_: Id)
    ensures RelabelledSome(tables, [], old_, site, new_) == tables
    ensures RelabelledSome(tables, ORDER, old_, site, new_) == RelabelledAll(tables, old_, site, new_)
  {
    OrderIsComplete();
  }

  lemma OneTableMore(tables: map<Table, map<Id, Row>>, done: seq<Table>, t: Table, old_: Id, site: Id, new_: Id)
    requires t !in done
    ensures var some := RelabelledSome(tables, done, old_, site, new_);
      RelabelledSome(tables, done + [t], old_, site, new_) ==
        if t in some then some[t := Relabelled(some[t], old_, site, new_)] else some
  {}

  class WidgetRegistry {
    var tenants: map<Id, string>
    var sites: map<Id, Site>
    var tables: map<Table, map<Id, Row>>

    function Contents(): Registry
      reads this
    {
      Registry(tenants, sites, tables)
    }

    constructor (tenants: map<Id, string>, sites: map<Id, Site>, tables: map<Table, map<Id, Row>>)
      ensures Contents() == Registry(tenants, sites, tables)
    {
      this.tenants, this.sites, this.tables := tenants, sites, tables;
    }

    method FindSite(key: string) returns (found: Option<Id>)
      requires SitesFit(tenants, sites)
      ensures found == SiteWithKey(sites, key)
    {
      if s :| s in sites && sites[s].siteKey == key {
        found := Some(s);
      } else {
        found := None;
      }
    }

    method UpdateTenant(t: Table, old_: Id, site: Id, new_: Id)
      modifies this`tables
      ensures tables == if t in old(tables) then old(tables)[t := Relabelled(old(tables)[t], old_, site, new_)] else old(tables)
    {
      if t in tables {
        var rows := tables[t];
        var updated := map r | r in rows ::
          if rows[r].tenantId == old_ && rows[r].siteId == site then rows[r].(tenantId := new_) else rows[r];
        assert updated == Relabelled(rows, old_, site, new_);
        tables := tables[t := updated];
      }
    }

    method MoveSite(old_: Id, site: Id, new_: Id)
      modifies this`tables
      ensures tables == RelabelledAll(old(tables), old_, site, new_)
    {
      OrderIsComplete();
      NoneThenAll(tables, old_, site, new_);
      for k := 0 to |ORDER|
        invariant tables == RelabelledSome(old(tables), ORDER[..k], old_, site, new_)
      {
        ghost var done := ORDER[..k];
        UpdateTenant(ORDER[k], old_, site, new_);
        assert ORDER[..k + 1] == done + [ORDER[k]];
        OneTableMore(old(tables), done, ORDER[k], old_, site, new_);
      }
      assert ORDER[..|ORDER|] == ORDER;
    }

    method ProvisionWidgetRegistry(config: Config) returns (error: Option<Error>)
      requires Coherent(Contents())
      modifies this
      ensures Coherent(Contents())
      ensures match Provision(old(Contents()), config)
        case Success(next) => error == None && Contents() == next
        case Failure(e) => error == Some(e) && Contents() == old(Contents())
    {
      var saved := Contents();
      error := Write(config);
      if error.Some? {
        tenants, sites, tables := saved.tenants, saved.sites, saved.tables;
      } else {
        ProvisionKeepsCoherent(saved, config);
      }
    }

    method Write(config: Config) returns (error: Option<Error>)
      requires Coherent(Contents())
      modifies this
      ensures match Provision(old(Contents()), config)
        case Success(next) => error == None && Contents() == next
        case Failure(e) => error == Some(e)
    {
      error := WriteSite(config);
      if error.Some? {
        return error;
      }
      var widgets := Rows(tables, Widgets);
      if KeyTaken(widgets, config) {
        return Some(WidgetKeyTaken);
      }
      tables := tables[Widgets := widgets[config.widgetId := WidgetRow(config)]];
      if !(config.siteId in sites && sites[config.siteId].tenantId == config.tenantId) {
        return Some(NoSuchSite);
      }
    }

    method WriteSite(config: Config) returns (error: Option<Error>)
      requires Coherent(Contents())
      modifies this
      ensures match SiteProvisioned(old(Contents()), config)
        case Success(next) => error == None && Contents() == next
        case Failure(e) => error == Some(e)
    {
      error := None;
      var existing := FindSite(config.siteKey);
      tenants := tenants[config.tenantId := config.tenantName];
      if existing.Some? {
        if sites[existing.value].tenantId != config.tenantId {
          MoveSite(sites[existing.value].tenantId, existing.value, config.tenantId);
        }
        sites := sites[existing.value := SiteRow(config)];
      } else if config.siteId in sites {
        error := Some(SiteIdTaken);
      } else {
        sites := sites[config.siteId := SiteRow(config)];
      }
    }
  }
}
