/** What paths in expressions find: `env.K`, `github.K`, `steps.ID.outputs.K` and the like, as text. */
module ContextReads {
  import opened Text
  import opened Values
  import opened Context
  import opened Lexer
  import opened Grammar
  import opened Evaluator
  import opened Phrases
  import opened Meanings

  /** The context objects that are looked up by name. */
  ghost function ObjectOf(c: EvalContext, h: string): Option<map<string, Value>> {
    if h == "github" then Some(c.github)
    else if h == "env" then Some(map k | k in c.env :: Str(c.env[k]))
    else if h == "job" then Some(c.job)
    else if h == "runner" then Some(c.runner)
    else if h == "secrets" then Some(map k | k in c.secrets :: Str(c.secrets[k]))
    else if h == "inputs" then Some(map k | k in c.inputs :: Str(c.inputs[k]))
    else None
  }

  /** A path is looked up part by part; one that leads nowhere is null. */
  lemma PathEval(pr: Prims, c: EvalContext, h: string, segs: seq<Seg>)
    requires Writable(Ident(h)) && forall seg | seg in segs :: WritableSeg(seg)
    ensures Operand(h + PathText(segs), 4)
    ensures EvalText(pr, c, h + PathText(segs)) ==
            match Lookup(pr, c, [h] + PathParts(segs)) case Some(v) => Some(v) case None => Some(Null)
  {
    hide EvalText, Spells, Lookup, WritableSeg, Writable, PathText, PathParts, Operand;
    SpellsPath(h, segs);
    SpellsEval(pr, c, h + PathText(segs), Path(h, segs));
    OperandOf(h + PathText(segs), Path(h, segs), 4);
  }

  lemma PathCons(seg: Seg, segs: seq<Seg>)
    ensures PathText([seg] + segs) == SegText(seg) + PathText(segs)
    ensures PathParts([seg] + segs) == [PathPart(seg)] + PathParts(segs)
  {
    assert ([seg] + segs)[1..] == segs;
  }

  lemma OneLink(seg: Seg)
    ensures PathText([seg]) == SegText(seg) && PathParts([seg]) == [PathPart(seg)]
  {
    assert [seg][1..] == [];
  }

  lemma TwoLinks(seg: Seg, seg': Seg)
    ensures PathText([seg, seg']) == SegText(seg) + SegText(seg')
    ensures PathParts([seg, seg']) == [PathPart(seg), PathPart(seg')]
  {
    hide SegText, PathPart, PathText, PathParts;
    OneLink(seg');
    PathCons(seg, [seg']);
    assert [seg] + [seg'] == [seg, seg'];
  }

  /** An identifier is never taken for an index. */
  lemma NameIsProp(k: string)
    requires Writable(Ident(k))
    ensures WritableSeg(Prop(k)) && BracketText(k) == None
  {
  }

  // ---- one link ----

  /** `h.k` */
  lemma PropText(pr: Prims, c: EvalContext, h: string, k: string)
    requires Writable(Ident(h)) && Writable(Ident(k))
    ensures Operand(h + "." + k, 4)
    ensures EvalText(pr, c, h + "." + k) == match Lookup(pr, c, [h, k]) case Some(v) => Some(v) case None => Some(Null)
  {
    hide EvalText, Lookup, Writable, Operand, PathText, PathParts;
    OneLink(Prop(k));
    NameIsProp(k);
    PathEval(pr, c, h, [Prop(k)]);
    assert h + ("." + k) == h + "." + k;
    assert [h] + [k] == [h, k];
  }

  lemma RootLookup(pr: Prims, c: EvalContext, h: string, parts: seq<string>)
    requires ObjectOf(c, h).Some?
    ensures Lookup(pr, c, [h] + parts) == LookupValue(pr, parts, Obj(ObjectOf(c, h).value))
  {
    assert ([h] + parts)[1..] == parts;
  }

  lemma RootsWritable(c: EvalContext, h: string)
    requires ObjectOf(c, h).Some? || h == "steps"
    ensures Writable(Ident(h))
  {
  }

  lemma FindKey(pr: Prims, m: map<string, Value>, k: string)
    requires BracketText(k) == None
    ensures k in m ==> LookupValue(pr, [k], Obj(m)) == Some(m[k])
    ensures FoldsKeys(pr) && k !in m && (forall x | x in m :: pr.toLower(x) != pr.toLower(k)) ==>
              LookupValue(pr, [k], Obj(m)) == None
    ensures FoldsKeys(pr) && k !in m && (exists x | x in m :: pr.toLower(x) == pr.toLower(k)) ==>
              exists x | x in m && pr.toLower(x) == pr.toLower(k) :: LookupValue(pr, [k], Obj(m)) == Some(m[x])
  {
    assert [k][1..] == [];
    var f := pr.foldKey(m, k);
    if FoldsKeys(pr) && k !in m && f.Some? {
      assert LookupValue(pr, [k], Obj(m)) == Some(m[f.value]);
    }
  }

  /** A name finds the entry under that very name; else, some entry whose name differs in case only; else nothing, and
      then the path is null. */
  lemma EntryText(pr: Prims, c: EvalContext, h: string, k: string)
    requires ObjectOf(c, h).Some? && Writable(Ident(k))
    ensures var m := ObjectOf(c, h).value;
            var found := EvalText(pr, c, h + "." + k);
            && (k in m ==> found == Some(m[k]))
            && (FoldsKeys(pr) && k !in m && (exists x | x in m :: pr.toLower(x) == pr.toLower(k)) ==>
                  exists x | x in m && pr.toLower(x) == pr.toLower(k) :: found == Some(m[x]))
            && (FoldsKeys(pr) && k !in m && (forall x | x in m :: pr.toLower(x) != pr.toLower(k)) ==> found == Some(Null))
  {
    var m := ObjectOf(c, h).value;
    hide EvalText, Lookup, Writable, LookupValue, FoldsKeys, Operand;
    RootsWritable(c, h);
    NameIsProp(k);
    PropText(pr, c, h, k);
    RootLookup(pr, c, h, [k]);
    assert [h] + [k] == [h, k];
    FindKey(pr, m, k);
  }

  /** Each object is found under its own name. */
  lemma EntryTexts(pr: Prims, c: EvalContext, k: string)
    requires Writable(Ident(k))
    ensures k in c.env ==> EvalText(pr, c, "env." + k) == Some(Str(c.env[k]))
    ensures k in c.secrets ==> EvalText(pr, c, "secrets." + k) == Some(Str(c.secrets[k]))
    ensures k in c.inputs ==> EvalText(pr, c, "inputs." + k) == Some(Str(c.inputs[k]))
    ensures k in c.github ==> EvalText(pr, c, "github." + k) == Some(c.github[k])
    ensures k in c.job ==> EvalText(pr, c, "job." + k) == Some(c.job[k])
    ensures k in c.runner ==> EvalText(pr, c, "runner." + k) == Some(c.runner[k])
  {
    hide EvalText, Writable;
    EntryText(pr, c, "env", k);
    EntryText(pr, c, "secrets", k);
    EntryText(pr, c, "inputs", k);
    EntryText(pr, c, "github", k);
    EntryText(pr, c, "job", k);
    EntryText(pr, c, "runner", k);
    Dotted(k);
  }

  lemma Dotted(k: string)
    ensures "env" + "." + k == "env." + k && "secrets" + "." + k == "secrets." + k && "inputs" + "." + k == "inputs." + k
    ensures "github" + "." + k == "github." + k && "job" + "." + k == "job." + k && "runner" + "." + k == "runner." + k
  {
    assert "env" + "." == "env." && "secrets" + "." == "secrets." && "inputs" + "." == "inputs.";
    assert "github" + "." == "github." && "job" + "." == "job." && "runner" + "." == "runner.";
  }

  /** Any other name is null. */
  lemma UnknownText(pr: Prims, c: EvalContext, h: string, k: string)
    requires ObjectOf(c, h).None? && h != "steps" && Writable(Ident(h)) && Writable(Ident(k))
    ensures EvalText(pr, c, h + "." + k) == Some(Null)
  {
    hide EvalText, Writable;
    PropText(pr, c, h, k);
  }

  // ---- an index ----

  lemma NumeralOf(i: nat)
    ensures IsNumeral(Itoa(i)) && BracketText("[" + Itoa(i) + "]") == Some(Itoa(i))
  {
    hide Itoa, AtoiDigits;
    ItoaDigits(i);
    var n, b := Itoa(i), "[" + Itoa(i) + "]";
    assert n[0] in n && forall c | c in n[1..] :: c in n;
    assert b[0] == '[' && b[|b| - 1] == ']' && b[1..|b| - 1] == n;
  }

  lemma IndexEval(pr: Prims, c: EvalContext, h: string, k: string, n: string)
    requires Writable(Ident(h)) && Writable(Ident(k)) && IsNumeral(n)
    ensures EvalText(pr, c, h + "." + k + "[" + n + "]") ==
            match Lookup(pr, c, [h] + [k, "[" + n + "]"]) case Some(v) => Some(v) case None => Some(Null)
  {
    hide EvalText, Lookup, Writable, Operand, PathText, PathParts, IsNumeral;
    NameIsProp(k);
    TwoLinks(Prop(k), At(n));
    PathEval(pr, c, h, [Prop(k), At(n)]);
    IndexedText(h, k, n);
  }

  lemma IndexedText(h: string, k: string, n: string)
    ensures h + ("." + k + ("[" + n + "]")) == h + "." + k + "[" + n + "]"
  {
  }

  /** `h.k[i]`: the element of a list, counted from zero; null behind its end. */
  lemma IndexText(pr: Prims, c: EvalContext, h: string, k: string, vs: seq<Value>, i: nat)
    requires ObjectOf(c, h).Some? && Writable(Ident(k)) && k in ObjectOf(c, h).value && ObjectOf(c, h).value[k] == List(vs)
    ensures EvalText(pr, c, h + "." + k + "[" + Itoa(i) + "]") == Some(if i < |vs| then vs[i] else Null)
  {
    var m := ObjectOf(c, h).value;
    hide EvalText, Lookup, LookupValue, Writable, Itoa, IsNumeral, ObjectOf, BracketText;
    NumeralOf(i);
    RootsWritable(c, h);
    NameIsProp(k);
    var n := Itoa(i);
    IndexEval(pr, c, h, k, n);
    RootLookup(pr, c, h, [k, "[" + n + "]"]);
    IndexLookup(pr, m, k, vs, i);
  }

  lemma IndexLookup(pr: Prims, m: map<string, Value>, k: string, vs: seq<Value>, i: nat)
    requires BracketText(k) == None && k in m && m[k] == List(vs) && BracketText("[" + Itoa(i) + "]") == Some(Itoa(i))
    ensures LookupValue(pr, [k, "[" + Itoa(i) + "]"], Obj(m)) == if i < |vs| then Some(vs[i]) else None
  {
    hide Itoa, Atoi, BracketText;
    var part := "[" + Itoa(i) + "]";
    AtoiOfItoa(i);
    assert [k, part][1..] == [part] && [part][1..] == [];
    assert i < |vs| ==> LookupValue(pr, [], vs[i]) == Some(vs[i]);
    assert LookupValue(pr, [part], List(vs)) == if i < |vs| then Some(vs[i]) else None;
  }

  // ---- earlier steps ----

  lemma StepPath(pr: Prims, c: EvalContext, id: string, segs: seq<Seg>)
    requires Writable(Ident(id)) && forall seg | seg in segs :: WritableSeg(seg)
    ensures var found := EvalText(pr, c, "steps." + id + PathText(segs));
            if id !in c.steps then found == Some(Null)
            else found == match LookupValue(pr, PathParts(segs), Obj(StepToMap(c.steps[id])))
                          case Some(v) => Some(v) case None => Some(Null)
  {
    hide EvalText, Writable, WritableSeg, Operand, PathText, PathParts, LookupValue, StepToMap;
    var all := [Prop(id)] + segs;
    RootsWritable(c, "steps");
    NameIsProp(id);
    PathCons(Prop(id), segs);
    PathEval(pr, c, "steps", all);
    StepsText(id, PathText(segs));
    var parts := ["steps"] + PathParts(all);
    assert parts == ["steps", id] + PathParts(segs) && parts[2..] == PathParts(segs);
    assert parts[0] == "steps" && parts[1] == id;
  }

  lemma StepsText(id: string, rest: string)
    ensures "steps" + ("." + id + rest) == "steps." + id + rest
  {
    assert "steps" + "." == "steps.";
  }

  lemma StepParts(pr: Prims, r: StepResult, k: string)
    requires BracketText(k) == None
    ensures var m := Obj(StepToMap(r));
            && LookupValue(pr, ["outcome"], m) == Some(Str(r.outcome))
            && LookupValue(pr, ["conclusion"], m) == Some(Str(r.conclusion))
            && (k in r.outputs ==> LookupValue(pr, ["outputs", k], m) == Some(Str(r.outputs[k])))
  {
    var m := StepToMap(r);
    assert BracketText("outcome") == None && BracketText("conclusion") == None && BracketText("outputs") == None;
    FindKey(pr, m, "outcome");
    FindKey(pr, m, "conclusion");
    FindKey(pr, StringsToValues(r.outputs), k);
    hide BracketText;
    assert ["outputs", k][1..] == [k];
    assert m["outputs"] == Obj(StringsToValues(r.outputs));
  }

  /** What is on record for a step, by its id; null for an id that is not on record. */
  lemma StepText(pr: Prims, c: EvalContext, id: string, k: string)
    requires Writable(Ident(id)) && Writable(Ident(k))
    ensures id in c.steps ==>
              && EvalText(pr, c, "steps." + id + ".outcome") == Some(Str(c.steps[id].outcome))
              && EvalText(pr, c, "steps." + id + ".conclusion") == Some(Str(c.steps[id].conclusion))
              && (k in c.steps[id].outputs ==>
                    EvalText(pr, c, "steps." + id + ".outputs." + k) == Some(Str(c.steps[id].outputs[k])))
    ensures id !in c.steps ==> EvalText(pr, c, "steps." + id + ".outputs." + k) == Some(Null)
  {
    hide EvalText, Writable, LookupValue, StepToMap;
    StepWords(k);
    NameIsProp(k);
    StepPath(pr, c, id, [Prop("outcome")]);
    StepPath(pr, c, id, [Prop("conclusion")]);
    StepPath(pr, c, id, [Prop("outputs"), Prop(k)]);
    if id in c.steps { StepParts(pr, c.steps[id], k); }
    hide PathText, PathParts;
    OutputsText(id, k);
  }

  lemma StepWords(k: string)
    ensures WritableSeg(Prop("outcome")) && WritableSeg(Prop("conclusion")) && WritableSeg(Prop("outputs"))
    ensures PathText([Prop("outcome")]) == ".outcome" && PathParts([Prop("outcome")]) == ["outcome"]
    ensures PathText([Prop("conclusion")]) == ".conclusion" && PathParts([Prop("conclusion")]) == ["conclusion"]
    ensures PathText([Prop("outputs"), Prop(k)]) == ".outputs." + k
    ensures PathParts([Prop("outputs"), Prop(k)]) == ["outputs", k]
  {
    hide PathText, PathParts;
    OneLink(Prop("outcome"));
    OneLink(Prop("conclusion"));
    TwoLinks(Prop("outputs"), Prop(k));
    DottedWords(k);
  }

  lemma DottedWords(k: string)
    ensures "." + "outcome" == ".outcome" && "." + "conclusion" == ".conclusion"
    ensures "." + "outputs" + ("." + k) == ".outputs." + k
  {
    assert "." + "outputs" == ".outputs";
  }

  lemma OutputsText(id: string, k: string)
    ensures "steps." + id + (".outputs." + k) == "steps." + id + ".outputs." + k
  {
  }
}
