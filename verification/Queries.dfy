/** The generated query methods: one SQL statement each, over a link that may break. */
module Queries {
  import opened Common
  import opened Dictionary

  class Queries {
    var d: Dict
    var link: Link

    constructor (d: Dict, link: Link)
      ensures this.d == d && this.link == link
    {
      this.d, this.link := d, link;
    }

    /** uuid.New(): no statement, so no call. */
    method NewId() returns (id: Id)
      modifies this`d
      ensures id == old(d.nextId) && d == old(d).(nextId := id + 1)
    {
      id := d.nextId;
      d := d.(nextId := id + 1);
    }

    /** One call over the link; the statement runs if it is applied. */
    method Send() returns (reply: Reply)
      modifies this`link
      ensures reply == Call(old(link)) && link == reply.link
    {
      reply := Call(link);
      link := reply.link;
    }

    method UpsertWord(id: Id, row: WordRow) returns (ok: bool, held: Id)
      requires UniqueKeys(d.words)
      modifies this
      ensures var reply, (words, w) := Call(old(link)), Dictionary.UpsertWord(old(d.words), id, row);
        ok == reply.ok && link == reply.link && held == w && d == if reply.applied then old(d).(words := words)
          else old(d)
    {
      var words := d.words;
      if exists w :: w in words && KeyOf(words[w]) == KeyOf(row) {
        held :| held in words && KeyOf(words[held]) == KeyOf(row);
        words := words[held := OverwriteWord(words[held], row)];
      } else {
        held := id;
        words := words[id := row];
      }
      var reply := Send();
      if reply.applied {
        d := d.(words := words);
      }
      ok := reply.ok;
    }

    method DeleteDefinitionsByWordID(w: Id) returns (ok: bool)
      modifies this
      ensures var reply := Call(old(link));
        ok == reply.ok && link == reply.link &&
        d == if reply.applied then old(d).(definitions := Without(old(d).definitions, w)) else old(d)
    {
      var reply := Send();
      if reply.applied {
        d := d.(definitions := Without(d.definitions, w));
      }
      ok := reply.ok;
    }

    method DeleteExamplesByWordID(w: Id) returns (ok: bool)
      modifies this
      ensures var reply := Call(old(link));
        ok == reply.ok && link == reply.link &&
        d == if reply.applied then old(d).(examples := Without(old(d).examples, w)) else old(d)
    {
      var reply := Send();
      if reply.applied {
        d := d.(examples := Without(d.examples, w));
      }
      ok := reply.ok;
    }

    method UpsertDefinition(row: Child<DefinitionBody>) returns (ok: bool)
      modifies this
      ensures var reply := Call(old(link));
        ok == reply.ok && link == reply.link &&
        d == if reply.applied then old(d).(definitions := Upsert(old(d).definitions, row, OverwriteDefinition))
          else old(d)
    {
      var reply := Send();
      if reply.applied {
        d := d.(definitions := Upsert(d.definitions, row, OverwriteDefinition));
      }
      ok := reply.ok;
    }

    method UpsertExample(row: Child<ExampleBody>) returns (ok: bool)
      modifies this
      ensures var reply := Call(old(link));
        ok == reply.ok && link == reply.link &&
        d == if reply.applied then old(d).(examples := Upsert(old(d).examples, row, OverwriteExample)) else old(d)
    {
      var reply := Send();
      if reply.applied {
        d := d.(examples := Upsert(d.examples, row, OverwriteExample));
      }
      ok := reply.ok;
    }
  }
}
