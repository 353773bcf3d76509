/** The conversational form: a state machine driven by answers of the language model, which are
    arbitrary, and the agents that step the active form.  `submitted` records every call of `submit`. */
module CatForm {
  import opened Prelude
  import opened Json

  type Data = map<string, Value>

  datatype FormState = Incomplete | Complete | WaitConfirm | Closed

  /** One error of a value that is present: a sub-field of a nested model is absent, which the validator
      reports as missing, or something is wrong. */
  datatype Problem = Absent | Wrong

  /** A form's fields, in declaration order; `problems` are the validation errors of a value, in order. */
  datatype Schema = Schema(fields: seq<string>, required: set<string>, problems: (string, Value) -> seq<Problem>)

  datatype Error = Missing(field: string) | Invalid(field: string)

  predicate NullLike(v: Value) {
    v in {Null, Str(""), Str("None"), Str("null"), Str("lower-case"), Str("unknown"), Str("missing")}
  }

  function Sanitize(d: Data): Data {
    map k | k in d && !NullLike(d[k]) :: d[k]
  }

  /** The errors of one value; the name reported is that of the form's field, also for a sub-field. */
  function Reported(f: string, ps: seq<Problem>): seq<Error> {
    if ps == [] then [] else [if ps[0].Absent? then Missing(f) else Invalid(f)] + Reported(f, ps[1..])
  }

  function FieldErrors(s: Schema, d: Data, f: string): seq<Error> {
    if f in d then Reported(f, s.problems(f, d[f]))
    else if f in s.required then [Missing(f)] else []
  }

  /** The validator's errors, field by field. */
  function Errors(s: Schema, d: Data, fs: seq<string>): seq<Error> {
    if fs == [] then [] else FieldErrors(s, d, fs[0]) + Errors(s, d, fs[1..])
  }

  predicate Passes(s: Schema, d: Data) {
    Errors(s, d, s.fields) == []
  }

  /** Each error that is not reported as missing deletes its field; deleting it twice raises. */
  function Purge(d: Data, es: seq<Error>): (Data, bool) {
    if es == [] then (d, true)
    else match es[0]
      case Missing(_) => Purge(d, es[1..])
      case Invalid(f) => if f in d then Purge(d - {f}, es[1..]) else (d, false)
  }

  /** Every field that is present is valid. */
  ghost predicate FieldsValid(s: Schema, d: Data) {
    forall f :: f in s.fields && f in d ==> s.problems(f, d[f]) == []
  }

  function CountWrong(ps: seq<Problem>): nat {
    if ps == [] then 0 else (if ps[0].Wrong? then 1 else 0) + CountWrong(ps[1..])
  }

  /** The errors of a present field that are not reported as missing. */
  function Wrongs(s: Schema, d: Data, f: string): nat {
    if f in d then CountWrong(s.problems(f, d[f])) else 0
  }

  /** The value is invalid only because sub-fields of a nested model are absent. */
  predicate OnlyAbsent(s: Schema, f: string, v: Value) {
    s.problems(f, v) != [] && CountWrong(s.problems(f, v)) == 0
  }

  // ---------- what validation means ----------

  lemma {:induction false} ErrorsEmpty(s: Schema, d: Data, fs: seq<string>)
    ensures Errors(s, d, fs) == [] <==>
            forall f :: f in fs ==> (f in d ==> s.problems(f, d[f]) == []) && (f in s.required ==> f in d)
  {
    if fs != [] {
      ErrorsEmpty(s, d, fs[1..]);
      assert forall f :: f in fs <==> f == fs[0] || f in fs[1..];
      var e := FieldErrors(s, d, fs[0]);
      assert e == [] <==> (fs[0] in d ==> s.problems(fs[0], d[fs[0]]) == []) && (fs[0] in s.required ==> fs[0] in d);
    }
  }

  /** Data passes exactly when every required field is present and every present field is valid. */
  lemma PassesMeans(s: Schema, d: Data)
    ensures Passes(s, d) <==>
            FieldsValid(s, d) && forall f :: f in s.fields && f in s.required ==> f in d
  {
    ErrorsEmpty(s, d, s.fields);
  }

  /** Once the field is gone, a further error that is not reported as missing raises. */
  lemma {:induction false} PurgeGone(d: Data, f: string, ps: seq<Problem>, rest: seq<Error>)
    requires f !in d
    ensures Purge(d, Reported(f, ps) + rest) == if CountWrong(ps) == 0 then Purge(d, rest) else (d, false)
  {
    var es := Reported(f, ps) + rest;
    if ps == [] {
      assert es == rest;
    } else {
      assert es[1..] == Reported(f, ps[1..]) + rest;
      PurgeGone(d, f, ps[1..], rest);
    }
  }

  lemma {:induction false} PurgeReported(d: Data, f: string, ps: seq<Problem>, rest: seq<Error>)
    requires f in d
    ensures var n := CountWrong(ps); var p := Purge(d, Reported(f, ps) + rest);
      && (n == 0 ==> p == Purge(d, rest))
      && (n == 1 ==> p == Purge(d - {f}, rest))
      && (n >= 2 ==> p == (d - {f}, false))
  {
    var es := Reported(f, ps) + rest;
    if ps == [] {
      assert es == rest;
    } else {
      assert es[1..] == Reported(f, ps[1..]) + rest;
      if ps[0].Absent? { PurgeReported(d, f, ps[1..], rest); } else { PurgeGone(d - {f}, f, ps[1..], rest); }
    }
  }

  lemma {:induction false} ErrorsFrame(s: Schema, d: Data, f: string, fs: seq<string>)
    requires f !in fs
    ensures Errors(s, d - {f}, fs) == Errors(s, d, fs)
  {
    if fs != [] { ErrorsFrame(s, d, f, fs[1..]); }
  }

  lemma PurgeHead(s: Schema, d: Data, fs: seq<string>)
    requires fs != [] && fs[0] !in fs[1..]
    ensures var p := Purge(d, Errors(s, d, fs)); var n := Wrongs(s, d, fs[0]);
      && (n == 0 ==> p == Purge(d, Errors(s, d, fs[1..])))
      && (n == 1 ==> p == Purge(d - {fs[0]}, Errors(s, d - {fs[0]}, fs[1..])))
      && (n >= 2 ==> p == (d - {fs[0]}, false))
  {
    var f := fs[0];
    var rest := Errors(s, d, fs[1..]);
    if f in d {
      PurgeReported(d, f, s.problems(f, d[f]), rest);
      ErrorsFrame(s, d, f, fs[1..]);
    } else if f in s.required {
      assert ([Missing(f)] + rest)[1..] == rest;
    } else {
      assert [] + rest == rest;
    }
  }

  /** A failed validation raises exactly when some present field has two or more errors that are not
      absent sub-fields. */
  lemma {:induction false} PurgeRaises(s: Schema, d: Data, fs: seq<string>)
    requires NoDup(fs)
    ensures !Purge(d, Errors(s, d, fs)).1 <==> exists f :: f in fs && Wrongs(s, d, f) >= 2
  {
    if fs != [] {
      PurgeHead(s, d, fs);
      var d' := if Wrongs(s, d, fs[0]) == 1 then d - {fs[0]} else d;
      PurgeRaises(s, d', fs[1..]);
      assert forall g :: g in fs[1..] ==> Wrongs(s, d', g) == Wrongs(s, d, g);
      assert forall g :: g in fs <==> g == fs[0] || g in fs[1..];
    }
  }

  /** It changes no value and removes only fields in which something is wrong; if it does not raise it
      removes all of these. */
  lemma {:induction false} PurgeIs(s: Schema, d: Data, fs: seq<string>)
    requires NoDup(fs)
    ensures forall f :: f in Purge(d, Errors(s, d, fs)).0 ==> f in d && Purge(d, Errors(s, d, fs)).0[f] == d[f]
    ensures forall f :: f in d && (f in fs ==> Wrongs(s, d, f) == 0) ==> f in Purge(d, Errors(s, d, fs)).0
    ensures Purge(d, Errors(s, d, fs)).1 ==>
              forall f :: f in fs && Wrongs(s, d, f) > 0 ==> f !in Purge(d, Errors(s, d, fs)).0
  {
    if fs != [] {
      PurgeHead(s, d, fs);
      var d' := if Wrongs(s, d, fs[0]) == 1 then d - {fs[0]} else d;
      PurgeIs(s, d', fs[1..]);
      assert forall g :: g in fs[1..] ==> Wrongs(s, d', g) == Wrongs(s, d, g);
      assert forall g :: g in fs <==> g == fs[0] || g in fs[1..];
    }
  }

  // ---------- one dialogue step ----------

  datatype Answer = Yes | No | Fails

  datatype Extraction = Extracted(d: Data) | NotADict | ExtractionFails

  /** The answers a step may ask for, in order, and whether `submit` fails. */
  datatype Oracle = Oracle(confirm: Answer, exitAfterNo: Answer, exit: Answer, extraction: Extraction, submitFails: bool)

  datatype FormV = FormV(state: FormState, model: Data, submitted: seq<Data>)

  datatype Outcome = Message | Submitted | Raised

  function NewForm(): FormV {
    FormV(Incomplete, map[], [])
  }

  function Submit(f: FormV, o: Oracle): (FormV, Outcome) {
    (f.(state := Closed, submitted := f.submitted + [f.model]), if o.submitFails then Raised else Submitted)
  }

  function Merge(s: Schema, f: FormV, d: Data): (FormV, bool) {
    var m := f.model + Sanitize(d);
    if Passes(s, m) then (f.(model := m, state := Complete), true)
    else
      var (p, ok) := Purge(m, Errors(s, m, s.fields));
      (f.(model := p, state := if ok then Incomplete else f.state), ok)
  }

  function Finish(ask: bool, f: FormV, o: Oracle): (FormV, Outcome) {
    if f.state.Complete? then
      if ask then (f.(state := WaitConfirm), Message) else Submit(f, o)
    else (f, Message)
  }

  /** From the exit check on. */
  function Proceed(s: Schema, ask: bool, f: FormV, o: Oracle): (FormV, Outcome) {
    match o.exit
    case Fails => (f, Raised)
    case Yes => (f.(state := Closed), Message)
    case No =>
      if !f.state.Incomplete? then Finish(ask, f, o)
      else match o.extraction
        case ExtractionFails => (f, Raised)
        case NotADict => (f, Raised)
        case Extracted(d) =>
          var (f', ok) := Merge(s, f, d);
          if ok then Finish(ask, f', o) else (f', Raised)
  }

  function NextStep(s: Schema, ask: bool, f: FormV, o: Oracle): (FormV, Outcome) {
    if !f.state.WaitConfirm? then Proceed(s, ask, f, o)
    else match o.confirm
      case Fails => (f, Raised)
      case Yes => Submit(f, o)
      case No =>
        match o.exitAfterNo
        case Fails => (f, Raised)
        case Yes => Proceed(s, ask, f.(state := Closed), o)
        case No => Proceed(s, ask, f.(state := Incomplete), o)
  }

  function RunForm(s: Schema, ask: bool, os: seq<Oracle>): FormV {
    if os == [] then NewForm() else NextStep(s, ask, RunForm(s, ask, os[..|os| - 1]), os[|os| - 1]).0
  }

  // ---------- safety over every run ----------

  ghost predicate NoNulls(d: Data) {
    forall k :: k in d ==> !NullLike(d[k])
  }

  ghost predicate FormInv(s: Schema, ask: bool, f: FormV) {
    && !f.state.Complete?
    && (f.state.WaitConfirm? ==> ask && Passes(s, f.model))
    && |f.submitted| <= 1
    && (f.submitted != [] ==> f.state.Closed? && f.submitted[0] == f.model && Passes(s, f.model))
    && NoNulls(f.model)
  }

  lemma PurgeNoNulls(d: Data, es: seq<Error>)
    requires NoNulls(d)
    ensures NoNulls(Purge(d, es).0)
  {
  }

  lemma MergeKeeps(s: Schema, f: FormV, d: Data)
    requires NoNulls(f.model)
    ensures var f' := Merge(s, f, d).0;
            NoNulls(f'.model) && f'.submitted == f.submitted && (f'.state == Complete || f'.state == Incomplete || f'.state == f.state)
    ensures var f' := Merge(s, f, d).0; f'.state.Complete? && !f.state.Complete? ==> Passes(s, f'.model)
  {
    var m := f.model + Sanitize(d);
    PurgeNoNulls(m, Errors(s, m, s.fields));
  }

  lemma FinishKeeps(s: Schema, ask: bool, f: FormV, o: Oracle)
    requires if f.state.Complete? then f.submitted == [] && NoNulls(f.model) && Passes(s, f.model) else FormInv(s, ask, f)
    ensures FormInv(s, ask, Finish(ask, f, o).0)
  {
  }

  lemma ProceedKeeps(s: Schema, ask: bool, f: FormV, o: Oracle)
    requires FormInv(s, ask, f) && !f.state.WaitConfirm?
    ensures FormInv(s, ask, Proceed(s, ask, f, o).0)
  {
    if o.exit.No? && !f.state.Incomplete? {
      FinishKeeps(s, ask, f, o);
    } else if o.exit.No? && o.extraction.Extracted? {
      var d := o.extraction.d;
      MergeKeeps(s, f, d);
      FinishKeeps(s, ask, Merge(s, f, d).0, o);
    }
  }

  /** Every step keeps: at most one submission, only of data that passes validation, null-like values
      never in the model, no step ending in COMPLETE. */
  lemma StepKeepsFormInv(s: Schema, ask: bool, f: FormV, o: Oracle)
    requires FormInv(s, ask, f)
    ensures FormInv(s, ask, NextStep(s, ask, f, o).0)
  {
    if !f.state.WaitConfirm? {
      ProceedKeeps(s, ask, f, o);
    } else if o.confirm.No? {
      ProceedKeeps(s, ask, f.(state := Closed), o);
      ProceedKeeps(s, ask, f.(state := Incomplete), o);
    }
  }

  lemma {:induction false} EveryRunSafe(s: Schema, ask: bool, os: seq<Oracle>)
    ensures FormInv(s, ask, RunForm(s, ask, os))
  {
    if os != [] {
      EveryRunSafe(s, ask, os[..|os| - 1]);
      StepKeepsFormInv(s, ask, RunForm(s, ask, os[..|os| - 1]), os[|os| - 1]);
    }
  }

  /** A closed form stays closed and unchanged whatever is asked of it. */
  lemma ClosedAbsorbs(s: Schema, ask: bool, f: FormV, o: Oracle)
    requires f.state.Closed?
    ensures NextStep(s, ask, f, o).0 == f
  {
  }

  /** Submission needs the user's confirmation, in a step that starts by waiting for it, when the form
      asks for one; otherwise it happens in the very step whose validation succeeded. */
  lemma SubmitOnlyWhenAllowed(s: Schema, ask: bool, f: FormV, o: Oracle)
    requires FormInv(s, ask, f) && NextStep(s, ask, f, o).0.submitted != f.submitted
    ensures ask ==> f.state.WaitConfirm? && o.confirm == Yes && NextStep(s, ask, f, o).0.model == f.model
    ensures !ask ==> f.state.Incomplete? && o.exit == No && o.extraction.Extracted?
    ensures NextStep(s, ask, f, o).0.submitted == [NextStep(s, ask, f, o).0.model]
    ensures Passes(s, NextStep(s, ask, f, o).0.model)
  {
  }

  // ---------- when a step submits, closes, waits and raises ----------

  /** The step gets to the exit check. */
  predicate ChecksExit(f: FormV, o: Oracle) {
    f.state.WaitConfirm? ==> o.confirm == No && o.exitAfterNo != Fails
  }

  /** The user wants to leave: asked after declining, or at the exit check. */
  predicate Leaves(f: FormV, o: Oracle) {
    || (f.state.WaitConfirm? && o.confirm == No && o.exitAfterNo == Yes)
    || (ChecksExit(f, o) && o.exit == Yes)
  }

  predicate Confirms(f: FormV, o: Oracle) {
    f.state.WaitConfirm? && o.confirm == Yes
  }

  /** The step extracts data, and the merged model passes validation. */
  predicate Fills(s: Schema, f: FormV, o: Oracle) {
    Updates(f, o) && Passes(s, Candidate(f, o))
  }

  /** The step asks for data, and gets none that it can merge. */
  predicate Stumbles(s: Schema, f: FormV, o: Oracle) {
    && ChecksExit(f, o) && o.exit == No
    && (f.state.Incomplete? || (f.state.WaitConfirm? && o.exitAfterNo == No))
    && (o.extraction.Extracted? ==>
          !Passes(s, Candidate(f, o)) && exists k :: k in s.fields && Wrongs(s, Candidate(f, o), k) >= 2)
  }

  /** A step submits the model it ends with if and only if a form that waits for confirmation gets it, or a
      form that needs none is filled; otherwise it submits nothing.  A confirmed model is the one that was
      waiting, a filled one is the old one with what was extracted. */
  lemma SubmitsIff(s: Schema, ask: bool, f: FormV, o: Oracle)
    requires FormInv(s, ask, f)
    ensures var f' := NextStep(s, ask, f, o).0;
      f'.submitted == if Confirms(f, o) || (!ask && Fills(s, f, o)) then f.submitted + [f'.model] else f.submitted
    ensures Confirms(f, o) ==> NextStep(s, ask, f, o).0.model == f.model
    ensures Fills(s, f, o) ==> NextStep(s, ask, f, o).0.model == Candidate(f, o)
  {
  }

  /** It ends closed exactly if the form was closed, the user leaves, or something is submitted. */
  lemma ClosesIff(s: Schema, ask: bool, f: FormV, o: Oracle)
    requires FormInv(s, ask, f)
    ensures NextStep(s, ask, f, o).0.state.Closed? <==>
      f.state.Closed? || Leaves(f, o) || Confirms(f, o) || (!ask && Fills(s, f, o))
  {
  }

  /** It ends waiting for confirmation exactly if the form asks for it and was just filled, or was waiting
      and no answer came. */
  lemma WaitsIff(s: Schema, ask: bool, f: FormV, o: Oracle)
    requires FormInv(s, ask, f)
    ensures NextStep(s, ask, f, o).0.state.WaitConfirm? <==>
      || (ask && Fills(s, f, o))
      || (f.state.WaitConfirm? && (o.confirm == Fails || (o.confirm == No && o.exitAfterNo == Fails)))
  {
  }

  /** It raises exactly if an answer fails that it asks for, no data can be extracted or merged, or `submit`
      fails. */
  lemma RaisesIff(s: Schema, ask: bool, f: FormV, o: Oracle)
    requires FormInv(s, ask, f) && NoDup(s.fields)
    ensures NextStep(s, ask, f, o).1.Raised? <==>
      || (f.state.WaitConfirm? && (o.confirm == Fails || (o.confirm == No && o.exitAfterNo == Fails)))
      || (ChecksExit(f, o) && o.exit == Fails)
      || Stumbles(s, f, o)
      || (o.submitFails && (Confirms(f, o) || (!ask && Fills(s, f, o))))
    ensures NextStep(s, ask, f, o).1.Submitted? <==> !o.submitFails && (Confirms(f, o) || (!ask && Fills(s, f, o)))
  {
    if o.extraction.Extracted? { PurgeRaises(s, Candidate(f, o), s.fields); }
  }

  // ---------- data only improves ----------

  lemma MergeData(s: Schema, f: FormV, d: Data)
    requires NoDup(s.fields)
    ensures var m := f.model + Sanitize(d); var f' := Merge(s, f, d).0;
      && (forall k :: k in f'.model ==> k in m && f'.model[k] == m[k])
      && (forall k :: k in m && (k in s.fields ==> Wrongs(s, m, k) == 0) ==> k in f'.model)
    ensures var m := f.model + Sanitize(d);
      Merge(s, f, d).1 ==> forall k :: k in s.fields && k in Merge(s, f, d).0.model ==> Wrongs(s, m, k) == 0
  {
    var m := f.model + Sanitize(d);
    PurgeIs(s, m, s.fields);
    if Passes(s, m) { PassesMeans(s, m); }
  }

  /** The model a step merged into, if it got that far. */
  predicate Updates(f: FormV, o: Oracle) {
    && o.exit == No && o.extraction.Extracted?
    && (f.state.Incomplete? || (f.state.WaitConfirm? && o.confirm == No && o.exitAfterNo == No))
  }

  lemma StepModel(s: Schema, ask: bool, f: FormV, o: Oracle)
    ensures NextStep(s, ask, f, o).0.model ==
            if Updates(f, o) then Merge(s, f.(state := Incomplete), o.extraction.d).0.model else f.model
    ensures Updates(f, o) && !NextStep(s, ask, f, o).1.Raised? ==> Merge(s, f.(state := Incomplete), o.extraction.d).1
  {
  }

  /** An accepted field survives until a new non-null value for it is extracted, also in steps that
      raise; and values only enter the model from the extraction, never null-like ones. */
  lemma AcceptedFieldsSurvive(s: Schema, ask: bool, f: FormV, o: Oracle, k: string)
    requires NoDup(s.fields)
    ensures var m := NextStep(s, ask, f, o).0.model;
      && ((k in f.model && (k in s.fields ==> Wrongs(s, f.model, k) == 0) &&
           (Updates(f, o) ==> k !in Sanitize(o.extraction.d))) ==> (k in m && m[k] == f.model[k]))
      && (k in m && !(k in f.model && m[k] == f.model[k]) ==>
            Updates(f, o) && k in o.extraction.d && m[k] == o.extraction.d[k] && !NullLike(m[k]))
  {
    StepModel(s, ask, f, o);
    if Updates(f, o) { MergeData(s, f.(state := Incomplete), o.extraction.d); }
  }

  /** The values that are dropped: null, the empty text, and five words. */
  lemma DroppedValues(v: Value)
    ensures NullLike(v) <==>
      || v == Null
      || (v.Str? && v.s in ["", "None", "null", "lower-case", "unknown", "missing"])
  {
  }

  /** Extracted values replace the old ones, unless they are dropped. */
  lemma CandidateIs(f: FormV, o: Oracle, k: string)
    requires o.extraction.Extracted?
    ensures var d, m := o.extraction.d, Candidate(f, o);
      && (k in d && !NullLike(d[k]) ==> k in m && m[k] == d[k])
      && (!(k in d && !NullLike(d[k])) ==> (k in m <==> k in f.model) && (k in m ==> m[k] == f.model[k]))
  {
  }

  /** What a step that updates validates: the model with the extracted values merged in. */
  function Candidate(f: FormV, o: Oracle): Data
    requires o.extraction.Extracted?
  {
    f.model + Sanitize(o.extraction.d)
  }

  /** After an update that returned, every remaining field is valid on its own if and only if none of the
      fields it validated is invalid merely by absent sub-fields: those are neither reported as errors
      nor removed. */
  lemma UpdatedFieldsValidIff(s: Schema, ask: bool, f: FormV, o: Oracle)
    requires NoDup(s.fields) && Updates(f, o) && !NextStep(s, ask, f, o).1.Raised?
    ensures FieldsValid(s, NextStep(s, ask, f, o).0.model) <==>
      forall k :: k in s.fields && k in Candidate(f, o) ==> !OnlyAbsent(s, k, Candidate(f, o)[k])
  {
    var m := Candidate(f, o);
    var m' := NextStep(s, ask, f, o).0.model;
    StepModel(s, ask, f, o);
    MergeData(s, f.(state := Incomplete), o.extraction.d);
    forall k | k in s.fields && k in m && OnlyAbsent(s, k, m[k]) ensures k in m' && m'[k] == m[k] {
      assert Wrongs(s, m, k) == 0;
    }
  }

  /** Such a field stays in the model as it was given, also in a step that raises over another one. */
  lemma AbsentSubfieldStays(s: Schema, ask: bool, f: FormV, o: Oracle, k: string)
    requires NoDup(s.fields) && Updates(f, o) && k in Candidate(f, o) && OnlyAbsent(s, k, Candidate(f, o)[k])
    ensures var m := NextStep(s, ask, f, o).0.model; k in m && m[k] == Candidate(f, o)[k]
  {
    StepModel(s, ask, f, o);
    MergeData(s, f.(state := Incomplete), o.extraction.d);
    assert Wrongs(s, Candidate(f, o), k) == 0;
  }

  /** A form with one nested field: an address without its street is kept, and the form goes on without
      an error. */
  lemma AddressWithoutStreet(ask: bool)
    ensures var s := Schema(["address"], {"address"}, (f: string, v: Value) => if v == Obj([]) then [Absent] else []);
            var o := Oracle(No, No, No, Extracted(map["address" := Obj([])]), false);
            NextStep(s, ask, NewForm(), o) == (NewForm().(model := map["address" := Obj([])]), Message)
  {
    var s := Schema(["address"], {"address"}, (f: string, v: Value) => if v == Obj([]) then [Absent] else []);
    var d: Data := map["address" := Obj([])];
    assert Sanitize(d) == d && NewForm().model + d == d;
    assert s.fields[1..] == [] && Reported("address", [Absent]) == [Missing("address")];
    assert Errors(s, d, s.fields) == [Missing("address")];
    assert [Missing("address")][1..] == [];
  }

  /** No value that can be extracted for a field fails by absent sub-fields alone. */
  ghost predicate NeverOnlyAbsent(s: Schema) {
    forall f, v :: f in s.fields && !NullLike(v) ==> !OnlyAbsent(s, f, v)
  }

  lemma StepFieldsValid(s: Schema, ask: bool, f: FormV, o: Oracle)
    requires NoDup(s.fields) && NeverOnlyAbsent(s) && forall f, v :: CountWrong(s.problems(f, v)) <= 1
    requires FieldsValid(s, f.model) && NoNulls(f.model)
    ensures FieldsValid(s, NextStep(s, ask, f, o).0.model)
  {
    StepModel(s, ask, f, o);
    if Updates(f, o) {
      var m, m' := Candidate(f, o), NextStep(s, ask, f, o).0.model;
      PurgeRaises(s, m, s.fields);
      MergeData(s, f.(state := Incomplete), o.extraction.d);
      forall k | k in s.fields && k in m' ensures s.problems(k, m'[k]) == [] {
        assert Wrongs(s, m, k) == 0 && m'[k] == m[k] && !NullLike(m[k]);
        assert !OnlyAbsent(s, k, m[k]);
      }
    }
  }

  lemma {:induction false} ReachableFieldsValid(s: Schema, ask: bool, os: seq<Oracle>)
    requires NoDup(s.fields) && NeverOnlyAbsent(s) && forall f, v :: CountWrong(s.problems(f, v)) <= 1
    ensures FieldsValid(s, RunForm(s, ask, os).model)
  {
    if os != [] {
      ReachableFieldsValid(s, ask, os[..|os| - 1]);
      EveryRunSafe(s, ask, os[..|os| - 1]);
      StepFieldsValid(s, ask, RunForm(s, ask, os[..|os| - 1]), os[|os| - 1]);
    }
  }

  /** The dialogue in which one value is extracted. */
  function Offer(f: string, v: Value): Oracle {
    Oracle(No, No, No, Extracted(map[f := v]), false)
  }

  /** With at most one error per field that is not an absent sub-field, all fields of every reachable
      model are valid if and only if no value can fail by absent sub-fields alone. */
  lemma OneErrorPerFieldValidIff(s: Schema, ask: bool)
    requires NoDup(s.fields) && forall f, v :: CountWrong(s.problems(f, v)) <= 1
    ensures (forall os :: FieldsValid(s, RunForm(s, ask, os).model)) <==> NeverOnlyAbsent(s)
  {
    if NeverOnlyAbsent(s) {
      forall os ensures FieldsValid(s, RunForm(s, ask, os).model) { ReachableFieldsValid(s, ask, os); }
    } else {
      var f, v :| f in s.fields && !NullLike(v) && OnlyAbsent(s, f, v);
      OfferedStays(s, ask, f, v);
    }
  }

  lemma OfferedStays(s: Schema, ask: bool, f: string, v: Value)
    requires NoDup(s.fields) && f in s.fields && !NullLike(v) && OnlyAbsent(s, f, v)
    ensures !FieldsValid(s, RunForm(s, ask, [Offer(f, v)]).model)
  {
    var o := Offer(f, v);
    assert [o][..0] == [] && RunForm(s, ask, [o]) == NextStep(s, ask, NewForm(), o).0;
    assert f in Sanitize(o.extraction.d) && Candidate(NewForm(), o)[f] == v;
    AbsentSubfieldStays(s, ask, NewForm(), o, f);
  }

  // ---------- the objects ----------

  /** The fields named by the errors that are, or are not, reported as missing. */
  function Listed(es: seq<Error>, missing: bool): seq<string> {
    if es == [] then []
    else Listed(es[..|es| - 1], missing) + if es[|es| - 1].Missing? == missing then [es[|es| - 1].field] else []
  }

  /** A field is listed as missing exactly if it is required and absent or a sub-field of it is absent, and
      among the errors exactly if something is wrong in it. */
  ghost predicate ListsAre(s: Schema, d: Data, missing: seq<string>, errors: seq<string>) {
    && (forall f :: f in missing <==> f in s.fields && if f in d then Absent in s.problems(f, d[f]) else f in s.required)
    && (forall f :: f in errors <==> f in s.fields && f in d && Wrong in s.problems(f, d[f]))
  }

  lemma {:induction false} ListedAre(es: seq<Error>, f: string)
    ensures f in Listed(es, true) <==> Missing(f) in es
    ensures f in Listed(es, false) <==> Invalid(f) in es
  {
    if es != [] {
      var n := |es| - 1;
      ListedAre(es[..n], f);
      assert es == es[..n] + [es[n]];
    }
  }

  lemma {:induction false} ReportedAre(f: string, ps: seq<Problem>, e: Error)
    ensures e in Reported(f, ps) <==> e.field == f && (if e.Missing? then Absent in ps else Wrong in ps)
  {
    if ps != [] {
      ReportedAre(f, ps[1..], e);
      assert ps == [ps[0]] + ps[1..];
    }
  }

  lemma {:induction false} ErrorsAre(s: Schema, d: Data, fs: seq<string>, e: Error)
    ensures e in Errors(s, d, fs) <==> e.field in fs && e in FieldErrors(s, d, e.field)
  {
    if fs != [] {
      ErrorsAre(s, d, fs[1..], e);
      if fs[0] in d { ReportedAre(fs[0], s.problems(fs[0], d[fs[0]]), e); }
      assert fs == [fs[0]] + fs[1..];
    }
  }

  lemma ErrorLists(s: Schema, d: Data)
    ensures var es := Errors(s, d, s.fields); ListsAre(s, d, Listed(es, true), Listed(es, false))
  {
    var es := Errors(s, d, s.fields);
    forall f
      ensures f in Listed(es, true) <==> f in s.fields && if f in d then Absent in s.problems(f, d[f]) else f in s.required
      ensures f in Listed(es, false) <==> f in s.fields && f in d && Wrong in s.problems(f, d[f])
    {
      ListedAre(es, f);
      ErrorsAre(s, d, s.fields, Missing(f));
      ErrorsAre(s, d, s.fields, Invalid(f));
      if f in d {
        ReportedAre(f, s.problems(f, d[f]), Missing(f));
        ReportedAre(f, s.problems(f, d[f]), Invalid(f));
      }
    }
  }

  class Form {
    const schema: Schema
    const askConfirm: bool
    var state: FormState
    var model: Data
    var missing: seq<string>
    var errors: seq<string>
    ghost var submitted: seq<Data>

    ghost function View(): FormV
      reads this
    {
      FormV(state, model, submitted)
    }

    constructor (schema: Schema, askConfirm: bool)
      ensures this.schema == schema && this.askConfirm == askConfirm && View() == NewForm()
    {
      this.schema := schema;
      this.askConfirm := askConfirm;
      state, model, missing, errors, submitted := Incomplete, map[], [], [], [];
    }

    /** The loop over the validator's errors. */
    method Report(es: seq<Error>) returns (ok: bool)
      modifies this`model, this`missing, this`errors
      ensures (model, ok) == Purge(old(model), es)
      ensures ok ==> missing == Listed(es, true) && errors == Listed(es, false)
    {
      missing, errors := [], [];
      var i := 0;
      while i < |es|
        invariant i <= |es|
        invariant Purge(old(model), es) == Purge(model, es[i..])
        invariant missing == Listed(es[..i], true) && errors == Listed(es[..i], false)
      {
        assert es[..i + 1][..i] == es[..i];
        assert es[i..][0] == es[i] && es[i..][1..] == es[i + 1..];
        match es[i] {
          case Missing(f) => missing := missing + [f];
          case Invalid(f) =>
            errors := errors + [f];
            if f !in model { return false; }
            model := model - {f};
        }
        i := i + 1;
      }
      assert es[..i] == es;
      ok := true;
    }

    /** The lists shown to the user: absent fields, also those of which only a sub-field is absent, and
        fields in which something is wrong. */
    method Validate() returns (ok: bool)
      modifies this`state, this`model, this`missing, this`errors
      ensures Passes(schema, old(model)) ==> ok && state == Complete && model == old(model)
      ensures !Passes(schema, old(model)) ==>
                (model, ok) == Purge(old(model), Errors(schema, old(model), schema.fields))
                && state == if ok then Incomplete else old(state)
      ensures ok ==> ListsAre(schema, old(model), missing, errors)
      ensures ok ==> var es := Errors(schema, old(model), schema.fields);
                missing == Listed(es, true) && errors == Listed(es, false)
      ensures ok && state == Complete ==> Passes(schema, old(model)) && missing == errors == []
    {
      ErrorLists(schema, model);
      var es := Errors(schema, model, schema.fields);
      ok := Report(es);
      if es == [] {
        state := Complete;
      } else if ok {
        state := Incomplete;
      }
    }

    method Update(d: Data) returns (ok: bool)
      modifies this`state, this`model, this`missing, this`errors
      ensures (View(), ok) == Merge(schema, old(View()), d)
    {
      model := model + Sanitize(d);
      ok := Validate();
    }

    method DoSubmit(o: Oracle) returns (r: Outcome)
      modifies this`state, this`submitted
      ensures (View(), r) == Submit(old(View()), o)
    {
      state := Closed;
      submitted := submitted + [model];
      r := if o.submitFails then Raised else Submitted;
    }

    /** One dialogue step. */
    method Next(o: Oracle) returns (r: Outcome)
      modifies this
      ensures (View(), r) == NextStep(schema, askConfirm, old(View()), o)
    {
      if state == WaitConfirm {
        match o.confirm {
          case Fails => return Raised;
          case Yes => r := DoSubmit(o); return;
          case No =>
            match o.exitAfterNo {
              case Fails => return Raised;
              case Yes => state := Closed;
              case No => state := Incomplete;
            }
        }
      }
      r := FromExitCheck(o);
    }

    method FromExitCheck(o: Oracle) returns (r: Outcome)
      modifies this
      ensures (View(), r) == Proceed(schema, askConfirm, old(View()), o)
    {
      match o.exit {
        case Fails => return Raised;
        case Yes => state := Closed;
        case No =>
      }
      if state == Incomplete {
        if !o.extraction.Extracted? { return Raised; }
        var ok := Update(o.extraction.d);
        if !ok { return Raised; }
      }
      if state == Complete {
        if askConfirm {
          state := WaitConfirm;
        } else {
          r := DoSubmit(o);
          return;
        }
      }
      r := Message;
    }
  }

  class WorkingMemory {
    var activeForm: Form?

    constructor ()
      ensures activeForm == null
    {
      activeForm := null;
    }
  }

  /** The language model's choice among the recalled procedures. */
  datatype Choice = Nothing | ChainFails | UseTool(direct: bool) | StartForm(schema: Schema, ask: bool)

  /** Steps the active form; a form that raised is left in place and the turn goes on. */
  method FormAgent(wm: WorkingMemory, o: Oracle) returns (direct: bool)
    modifies wm, wm.activeForm
    ensures old(wm.activeForm) == null ==> wm.activeForm == null && !direct
    ensures old(wm.activeForm) != null && old(wm.activeForm.state) == Closed ==> wm.activeForm == null && !direct
    ensures old(wm.activeForm) != null && old(wm.activeForm.state) != Closed ==>
              var f := old(wm.activeForm);
              && wm.activeForm == f
              && f.View() == NextStep(f.schema, f.askConfirm, old(f.View()), o).0
              && direct == !NextStep(f.schema, f.askConfirm, old(f.View()), o).1.Raised?
  {
    if wm.activeForm == null { return false; }
    if wm.activeForm.state == Closed {
      wm.activeForm := null;
      return false;
    }
    var r := wm.activeForm.Next(o);
    direct := r != Raised;
  }

  /** One turn of the procedures agent.  An open form is replaced by another only in a turn where its
      own step raised; a new form is stepped once in the turn that starts it. */
  method ProceduresAgent(wm: WorkingMemory, o: Oracle, recalled: bool, choice: Choice, o2: Oracle) returns (direct: bool)
    modifies wm, wm.activeForm
    ensures var f := old(wm.activeForm);
      f != null && old(f.state) != Closed ==>
        && f.View() == NextStep(f.schema, f.askConfirm, old(f.View()), o).0
        && (wm.activeForm != f ==>
              && NextStep(f.schema, f.askConfirm, old(f.View()), o).1.Raised?
              && recalled && choice.StartForm?)
    ensures wm.activeForm != null && wm.activeForm != old(wm.activeForm) ==>
              && fresh(wm.activeForm) && choice.StartForm?
              && wm.activeForm.View() == NextStep(choice.schema, choice.ask, NewForm(), o2).0
    ensures var f := old(wm.activeForm);
      var open := f != null && old(f.state) != Closed;
      var stepped := open && !NextStep(f.schema, f.askConfirm, old(f.View()), o).1.Raised?;
      && (wm.activeForm != null && wm.activeForm != f <==> !stepped && recalled && choice.StartForm?)
      && (!open && !(recalled && choice.StartForm?) ==> wm.activeForm == null)
      && direct == (stepped || (recalled && match choice
           case UseTool(d) => d
           case StartForm(schema, ask) => !NextStep(schema, ask, NewForm(), o2).1.Raised?
           case _ => false))
  {
    direct := FormAgent(wm, o);
    if direct { return; }
    if recalled {
      match choice {
        case Nothing => return false;
        case ChainFails => return false;
        case UseTool(d) => return d;
        case StartForm(schema, ask) =>
          wm.activeForm := new Form(schema, ask);
          direct := FormAgent(wm, o2);
          return;
      }
    }
    direct := false;
  }
}
