/**
 The database and the unit of work around it.
 */
module Sessions {
  import opened Rows
  import opened Delivery

  /** The committed tables. */
  class Database {
    var nextId: Id
    var tenants: map<Id, Tenant>
    var templates: TemplateCache
    var campaigns: map<Id, Campaign>
    var recipients: map<Id, Recipient>
    var messages: map<Id, Message>
    var events: map<Id, WebhookEvent>

    constructor (t: Tables)
      ensures View() == t
    {
      nextId, tenants, templates, campaigns := t.nextId, t.tenants, t.templates, t.campaigns;
      recipients, messages, events := t.recipients, t.messages, t.events;
    }

    function View(): Tables
      reads this
    {
      Tables(nextId, tenants, templates, campaigns, recipients, messages, events)
    }
  }

  /**
   A session: rows as the transaction sees them, and new rows that no flush has written yet.
   With autoflush off, queries do not see the pending rows.
   */
  class Session {
    const database: Database
    var nextId: Id
    var tenants: map<Id, Tenant>
    var templates: TemplateCache
    var campaigns: map<Id, Campaign>
    var recipients: map<Id, Recipient>
    var messages: map<Id, Message>
    var events: map<Id, WebhookEvent>
    var pending: seq<Message>

    constructor (database: Database)
      ensures this.database == database && View() == database.View() && pending == []
    {
      this.database := database;
      nextId, tenants, templates := database.nextId, database.tenants, database.templates;
      campaigns := database.campaigns;
      recipients, messages, events := database.recipients, database.messages, database.events;
      pending := [];
    }

    function View(): Tables
      reads this
    {
      Tables(nextId, tenants, templates, campaigns, recipients, messages, events)
    }

    /** Writes the pending messages, in the order they were added. */
    method Flush()
      modifies this
      ensures View() == Flushed(old(View()), old(pending)) && pending == []
    {
      var i := 0;
      while i < |pending|
        invariant i <= |pending| && pending == old(pending)
        invariant Flushed(View(), pending[i..]) == Flushed(old(View()), old(pending))
      {
        messages := messages[nextId := pending[i]];
        nextId := nextId + 1;
        assert pending[i..][1..] == pending[i+1..];
        i := i + 1;
      }
      pending := [];
    }

    method Commit()
      modifies this, database
      ensures database.View() == View() == Flushed(old(View()), old(pending)) && pending == []
    {
      Flush();
      database.nextId, database.tenants, database.templates := nextId, tenants, templates;
      database.campaigns := campaigns;
      database.recipients, database.messages, database.events := recipients, messages, events;
    }

    method Rollback()
      modifies this
      ensures View() == database.View() && pending == []
    {
      nextId, tenants, templates := database.nextId, database.tenants, database.templates;
      campaigns := database.campaigns;
      recipients, messages, events := database.recipients, database.messages, database.events;
      pending := [];
    }
  }

  function Flushed(t: Tables, rows: seq<Message>): Tables
    decreases |rows|
  {
    if rows == [] then t else Flushed(AddMessage(t, rows[0]), rows[1..])
  }
}
