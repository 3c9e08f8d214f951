/** The landing page's mini form builder: an editable list of fields with
    numeric ids, and the form markup generated from it. */
module Playground {
  import opened Prelude

  /** One field of the builder (`type` and `label` in the page). */
  datatype PlaygroundField = PlaygroundField(id: int, kind: string, caption: string, placeholder: string)

  /** The two fields the builder starts with. */
  function InitialFields(): (fs: seq<PlaygroundField>)
    ensures |fs| == 2 && fs[0].id == 1 && fs[1].id == 2
  {
    [PlaygroundField(1, "text", "Name", "Enter your name"),
     PlaygroundField(2, "email", "Email", "you@example.com")]
  }

  /** The field `addField` appends, with the id it is given. */
  function NewField(id: int): PlaygroundField
  {
    PlaygroundField(id, "text", "New Field", "Enter value")
  }

  /** No two fields share an id. */
  predicate UniqueIds(fs: seq<PlaygroundField>)
  {
    forall i, j :: 0 <= i < j < |fs| ==> fs[i].id != fs[j].id
  }

  /** `Math.max(...fields.map(f => f.id))` on a non-empty list. */
  function MaxId(fs: seq<PlaygroundField>): (m: int)
    requires fs != []
    ensures forall i :: 0 <= i < |fs| ==> fs[i].id <= m
    ensures exists i :: 0 <= i < |fs| && fs[i].id == m
  {
    if |fs| == 1 then fs[0].id
    else
      var rest := MaxId(fs[1..]);
      assert forall i :: 1 <= i < |fs| ==> fs[i] == fs[1..][i - 1];
      if fs[0].id >= rest then fs[0].id else rest
  }

  /** `fields.filter(f => f.id !== id)`. */
  function RemoveId(fs: seq<PlaygroundField>, id: int): (r: seq<PlaygroundField>)
    ensures forall f :: f in r <==> f in fs && f.id != id
    ensures |r| <= |fs|
  {
    if fs == [] then []
    else
      assert fs == [fs[0]] + fs[1..];
      (if fs[0].id != id then [fs[0]] else []) + RemoveId(fs[1..], id)
  }

  /** Removing an id that no field has changes nothing. */
  lemma {:induction false} RemoveAbsentId(fs: seq<PlaygroundField>, id: int)
    requires forall i :: 0 <= i < |fs| ==> fs[i].id != id
    ensures RemoveId(fs, id) == fs
  {
    if fs != [] {
      RemoveAbsentId(fs[1..], id);
    }
  }

  /** Some field has the id. */
  predicate HasId(fs: seq<PlaygroundField>, id: int)
  {
    exists i :: 0 <= i < |fs| && fs[i].id == id
  }

  /** Removing an id keeps the remaining ids distinct. */
  lemma {:induction false} RemoveIdKeepsUnique(fs: seq<PlaygroundField>, id: int)
    requires UniqueIds(fs)
    ensures UniqueIds(RemoveId(fs, id))
  {
    if fs != [] {
      var tail := fs[1..];
      RemoveIdKeepsUnique(tail, id);
      if fs[0].id != id {
        var rest := RemoveId(tail, id);
        forall k | 0 <= k < |rest| ensures rest[k].id != fs[0].id {
          var j :| 0 <= j < |tail| && tail[j] == rest[k];
          assert fs[j + 1] == tail[j];
        }
        assert RemoveId(fs, id) == [fs[0]] + rest;
      }
    }
  }

  /** Among fields with distinct ids, removing an id drops exactly one
      field when some field has it and none otherwise. */
  lemma {:induction false} RemoveIdLength(fs: seq<PlaygroundField>, id: int)
    requires UniqueIds(fs)
    ensures HasId(fs, id) ==> |RemoveId(fs, id)| == |fs| - 1
    ensures !HasId(fs, id) ==> RemoveId(fs, id) == fs
  {
    if !HasId(fs, id) {
      RemoveAbsentId(fs, id);
    } else if fs != [] {
      var tail := fs[1..];
      if fs[0].id == id {
        forall k | 0 <= k < |tail| ensures tail[k].id != id {
          assert tail[k] == fs[k + 1];
        }
        RemoveAbsentId(tail, id);
      } else {
        var i :| 0 <= i < |fs| && fs[i].id == id;
        assert tail[i - 1].id == id;
        RemoveIdLength(tail, id);
      }
    }
  }

  /** The markup before and after the field blocks. */
  const FormOpen: string := "<form className=\"space-y-4\">\n"
  const FormClose: string := "\n  <button type=\"submit\">Submit</button>\n</form>"

  /** The markup of one field. */
  function FieldBlock(f: PlaygroundField): string
  {
    "  <div>\n    <label className=\"text-sm font-medium\">" + f.caption + "</label>\n" +
    "    <input \n      type=\"" + f.kind + "\" \n      placeholder=\"" + f.placeholder + "\"\n" +
    "      className=\"w-full px-3 py-2 border rounded-md\"\n    />\n  </div>"
  }

  function Blocks(fs: seq<PlaygroundField>): (bs: seq<string>)
    ensures |bs| == |fs| && forall i :: 0 <= i < |fs| ==> bs[i] == FieldBlock(fs[i])
  {
    seq(|fs|, i requires 0 <= i < |fs| => FieldBlock(fs[i]))
  }

  /** `generateCode`: the field blocks in list order, separated by line
      breaks, inside a form that ends with a submit button. */
  function GenerateCode(fs: seq<PlaygroundField>): (code: string)
    ensures StartsWith(code, FormOpen)
    ensures |code| >= |FormOpen| + |FormClose| && code[|code| - |FormClose|..] == FormClose
  {
    var body := Join(Blocks(fs), "\n");
    WrappedEnds(FormOpen, body, FormClose);
    FormOpen + body + FormClose
  }

  /** Text placed between a prefix and a suffix starts with the one and
      ends with the other. */
  lemma WrappedEnds(prefix: string, body: string, suffix: string)
    ensures StartsWith(prefix + body + suffix, prefix)
    ensures (prefix + body + suffix)[|prefix + body|..] == suffix
  {
    assert (prefix + body + suffix)[..|prefix|] == prefix;
  }

  /** Every field's block occurs in the generated code. */
  lemma CodeHasEveryField(fs: seq<PlaygroundField>, i: nat)
    requires i < |fs|
    ensures IsInfix(FieldBlock(fs[i]), GenerateCode(fs))
  {
    JoinHasEach(Blocks(fs), "\n", i);
    InfixInConcat(FieldBlock(fs[i]), FormOpen, Join(Blocks(fs), "\n"), FormClose);
  }

  /** Adding a field inserts exactly its block, after a line break, before
      the submit button; the rest of the code is unchanged. */
  lemma CodeAfterAppend(fs: seq<PlaygroundField>, f: PlaygroundField)
    requires fs != []
    ensures GenerateCode(fs + [f]) == FormOpen + Join(Blocks(fs), "\n") + "\n" + FieldBlock(f) + FormClose
  {
    BlocksAppend(fs, f);
    WrappedJoinAppend(FormOpen, Blocks(fs), FieldBlock(f), FormClose, "\n");
  }

  /** `JoinAppend` inside a fixed prefix and suffix. */
  lemma WrappedJoinAppend(prefix: string, xs: seq<string>, x: string, suffix: string, sep: string)
    requires xs != []
    ensures prefix + Join(xs + [x], sep) + suffix == prefix + Join(xs, sep) + sep + x + suffix
  {
    JoinAppend(xs, x, sep);
  }

  lemma BlocksAppend(fs: seq<PlaygroundField>, f: PlaygroundField)
    ensures Blocks(fs + [f]) == Blocks(fs) + [FieldBlock(f)]
  {
    var l, r := Blocks(fs + [f]), Blocks(fs) + [FieldBlock(f)];
    forall i | 0 <= i < |l| ensures l[i] == r[i] {
      assert (fs + [f])[i] == if i < |fs| then fs[i] else f;
    }
  }

  class PlaygroundSection {
    var fields: seq<PlaygroundField>

    /** The list is never empty and its ids are distinct. */
    predicate Valid()
      reads this
    {
      fields != [] && UniqueIds(fields)
    }

    constructor ()
      ensures Valid() && fields == InitialFields()
    {
      fields := InitialFields();
    }

    /** `addField`: appends a default field whose id is one more than the
        largest id, so it is fresh. */
    method AddField() returns (newId: int)
      requires Valid()
      modifies this
      ensures Valid()
      ensures newId == MaxId(old(fields)) + 1
      ensures fields == old(fields) + [NewField(newId)]
      ensures forall i :: 0 <= i < |old(fields)| ==> old(fields)[i].id < newId
    {
      newId := MaxId(fields) + 1;
      fields := fields + [NewField(newId)];
    }

    /** `removeField`: the fields with that id are filtered out, but only
        while more than one field exists; the list never becomes empty. */
    method RemoveField(id: int)
      requires Valid()
      modifies this
      ensures Valid()
      ensures |old(fields)| > 1 ==> fields == RemoveId(old(fields), id)
      ensures |old(fields)| <= 1 ==> fields == old(fields)
    {
      if |fields| > 1 {
        RemoveIdKeepsUnique(fields, id);
        RemoveIdLength(fields, id);
        fields := RemoveId(fields, id);
      }
    }

    /** The label input's change: only the field at `index` changes, and
        only its label. */
    method EditLabel(index: nat, text: string)
      requires Valid() && index < |fields|
      modifies this
      ensures Valid()
      ensures fields == old(fields)[index := old(fields)[index].(caption := text)]
    {
      var updated := fields;
      updated := updated[index := updated[index].(caption := text)];
      fields := updated;
    }

    /** The placeholder input's change. */
    method EditPlaceholder(index: nat, text: string)
      requires Valid() && index < |fields|
      modifies this
      ensures Valid()
      ensures fields == old(fields)[index := old(fields)[index].(placeholder := text)]
    {
      var updated := fields;
      updated := updated[index := updated[index].(placeholder := text)];
      fields := updated;
    }

    /** The type select's change. */
    method EditType(index: nat, kind: string)
      requires Valid() && index < |fields|
      modifies this
      ensures Valid()
      ensures fields == old(fields)[index := old(fields)[index].(kind := kind)]
    {
      var updated := fields;
      updated := updated[index := updated[index].(kind := kind)];
      fields := updated;
    }

    /** The generated code for the current list. */
    function Code(): (code: string)
      reads this
      ensures StartsWith(code, FormOpen)
    {
      GenerateCode(fields)
    }
  }

  /** Adding a field and then removing it gives back the list it started
      from. */
  method AddThenRemove(p: PlaygroundSection)
    requires p.Valid()
    modifies p
    ensures p.Valid() && p.fields == old(p.fields)
  {
    ghost var before := p.fields;
    var id := p.AddField();
    assert forall i :: 0 <= i < |before| ==> before[i].id != id;
    p.RemoveField(id);
    RemoveAbsentId(before, id);
    assert (before + [NewField(id)])[..|before|] == before;
    RemoveIdAppended(before, NewField(id));
  }

  lemma {:induction false} RemoveIdAppended(fs: seq<PlaygroundField>, f: PlaygroundField)
    ensures RemoveId(fs + [f], f.id) == RemoveId(fs, f.id)
  {
    if fs == [] {
      assert RemoveId([f], f.id) == [];
    } else {
      assert (fs + [f])[1..] == fs[1..] + [f];
      RemoveIdAppended(fs[1..], f);
    }
  }
}
