/** The tables as an object that statements change. */
module ChatStores {
  import opened Wrappers
  import opened ChatDatabase

  class ChatStore {
    var conversations: map<Id, Conversation>
    var messages: map<Id, Message>
    var runs: map<Id, Run>
    var handoffs: map<Id, Handoff>
    var inputs: map<Id, Input>
    var keys: map<CommandKey, KeyRow>
    var issued: set<Id>

    function Tables(): Db
      reads this
    {
      Db(conversations, messages, runs, handoffs, inputs, keys, issued)
    }

    constructor ()
      ensures Tables() == EMPTY_DB
    {
      conversations, messages, runs, handoffs, inputs, keys, issued := map[], map[], map[], map[], map[], map[], {};
    }

    /** A transaction that fails leaves the tables as it found them. */
    method Rollback(saved: Db)
      modifies this
      ensures Tables() == saved
    {
      conversations, messages, runs := saved.conversations, saved.messages, saved.runs;
      handoffs, inputs, keys, issued := saved.handoffs, saved.inputs, saved.keys, saved.issued;
    }
  }
}
