/**
 * The generic create/edit form (components/crud-modal.tsx): a keyed form
 * record edited one field at a time, per-field search terms for searchable
 * selects, the reset on opening, and the outcome of submitting.
 */
module CrudModal {
  import opened Options
  import opened JsValues
  import opened Text
  import opened Seqs

  /** What `handleChange` reads off `e.target`. */
  datatype ChangeEvent = ChangeEvent(name: string, value: string, isCheckbox: bool, checked: bool)

  /** The value `handleChange` stores: a checkbox stores the string 'true' or 'false'. */
  function FinalValue(e: ChangeEvent): (v: Value)
    ensures v.Str?
    ensures e.isCheckbox ==> (v == Str("true") <==> e.checked) && (v == Str("false") <==> !e.checked)
    ensures !e.isCheckbox ==> v == Str(e.value)
  {
    if e.isCheckbox then Str(if e.checked then "true" else "false") else Str(e.value)
  }

  /** `{...formData, [name]: finalValue}`: only the changed field differs. */
  function ApplyChange(formData: Record, e: ChangeEvent): (r: Record)
    ensures r.Keys == formData.Keys + {e.name}
    ensures r[e.name] == FinalValue(e)
    ensures forall k :: k in formData && k != e.name ==> r[k] == formData[k]
  {
    formData[e.name := FinalValue(e)]
  }

  /** The `checked` attribute of a checkbox field: the string 'true' or the boolean true. */
  predicate IsChecked(formData: Record, name: string) {
    Get(formData, name) == Str("true") || Get(formData, name) == Bool(true)
  }

  /** Ticking or clearing a checkbox is what the box then shows. */
  lemma CheckboxShowsWhatWasClicked(formData: Record, name: string, value: string, checked: bool)
    ensures IsChecked(ApplyChange(formData, ChangeEvent(name, value, true, checked)), name) == checked
  {
  }

  /** `initialData || {}`: the record the form starts from. */
  function InitialForm(initialData: Option<Record>): (r: Record)
    ensures initialData.None? ==> r == map[]
    ensures initialData.Some? ==> r == initialData.value
  {
    if initialData.Some? then initialData.value else map[]
  }

  /** An entry of a select field. */
  datatype SelectOption = SelectOption(value: string, labelText: string)

  /** `searchInputs[fieldName]?.toLowerCase() || ''`. */
  function SearchTerm(searchInputs: map<string, string>, fieldName: string): (t: string)
    ensures fieldName !in searchInputs ==> t == ""
    ensures fieldName in searchInputs ==> t == Lower(searchInputs[fieldName])
  {
    if fieldName in searchInputs then Lower(searchInputs[fieldName]) else ""
  }

  /** An option matches a lower-cased term when its lower-cased label includes it. */
  predicate LabelMatches(o: SelectOption, term: string) {
    Contains(Lower(o.labelText), term)
  }

  /** `getFilteredOptions`: the options a searchable select lists. */
  function FilteredOptions(searchInputs: map<string, string>, fieldName: string, options: Option<seq<SelectOption>>)
    : (r: seq<SelectOption>)
    ensures options.None? ==> r == []
    ensures options.Some? && SearchTerm(searchInputs, fieldName) == "" ==> r == options.value
    ensures options.Some? ==> IsSubseq(r, options.value)
    ensures forall o :: o in r ==> LabelMatches(o, SearchTerm(searchInputs, fieldName))
    ensures options.Some? ==> forall o :: o in options.value && LabelMatches(o, SearchTerm(searchInputs, fieldName)) ==> o in r
    ensures options.Some? ==> forall o ::
              multiset(r)[o] == if LabelMatches(o, SearchTerm(searchInputs, fieldName)) then multiset(options.value)[o] else 0
  {
    if options.None? then []
    else
      var term := SearchTerm(searchInputs, fieldName);
      if term == "" then
        SubseqRefl(options.value);
        assert forall o :: LabelMatches(o, term) by {
          forall o ensures LabelMatches(o, term) { ContainsEmpty(Lower(o.labelText)); }
        }
        options.value
      else
        var p := (o: SelectOption) => LabelMatches(o, term);
        FilterIsSubseq(options.value, p);
        assert forall o :: multiset(Filter(options.value, p))[o] == if p(o) then multiset(options.value)[o] else 0 by {
          forall o ensures multiset(Filter(options.value, p))[o] == if p(o) then multiset(options.value)[o] else 0 {
            FilterCount(options.value, p, o);
          }
        }
        assert forall o :: o in options.value && p(o) ==> o in Filter(options.value, p) by {
          forall o | o in options.value && p(o) ensures o in Filter(options.value, p) {
            assert multiset(options.value)[o] > 0;
          }
        }
        Filter(options.value, p)
  }

  /** The option search is case-insensitive: terms that lower-case alike list the same options. */
  lemma OptionSearchCaseInsensitive(searchInputs: map<string, string>, fieldName: string, a: string, b: string,
                                    options: Option<seq<SelectOption>>)
    requires Lower(a) == Lower(b)
    ensures FilteredOptions(searchInputs[fieldName := a], fieldName, options)
         == FilteredOptions(searchInputs[fieldName := b], fieldName, options)
  {
    assert SearchTerm(searchInputs[fieldName := a], fieldName) == SearchTerm(searchInputs[fieldName := b], fieldName);
  }

  /** Typing in one field's search box leaves every other field's option list as it was. */
  lemma SearchInputIsPerField(searchInputs: map<string, string>, fieldName: string, value: string,
                              other: string, options: Option<seq<SelectOption>>)
    requires other != fieldName
    ensures FilteredOptions(searchInputs[fieldName := value], other, options) == FilteredOptions(searchInputs, other, options)
  {
    assert SearchTerm(searchInputs[fieldName := value], other) == SearchTerm(searchInputs, other);
  }

  /** Once a value is picked the field's term is '', so its select lists every option again. */
  lemma PickShowsAllOptions(searchInputs: map<string, string>, fieldName: string, options: seq<SelectOption>)
    ensures FilteredOptions(searchInputs[fieldName := ""], fieldName, Some(options)) == options
  {
    assert Lower("") == "";
  }

  /** What the awaited `onSubmit` did: it returned, or threw an `Error` or some other value. */
  datatype SubmitOutcome = Saved | ThrewError(message: string) | ThrewOther

  /** The message the form shows after a failed submit. */
  function FailureMessage(outcome: SubmitOutcome): (m: string)
    requires !outcome.Saved?
    ensures outcome.ThrewError? ==> m == outcome.message
    ensures outcome.ThrewOther? ==> m == "Erro ao salvar"
  {
    if outcome.ThrewError? then outcome.message else "Erro ao salvar"
  }

  /** The TypeError message of calling an `onOpenChange` the parent did not pass (V8 wording). */
  const OpenChangeMissingMessage := "onOpenChange is not a function"

  /** The modal's state. */
  class Modal {
    var formData: Record
    var loading: bool
    var error: string
    var searchInputs: map<string, string>
    /** The parent's open flag, the `isOpen` prop, which `onOpenChange(false)` clears. */
    var isOpen: bool
    /** Whether the parent passed an `onOpenChange` callback at all. */
    const hasOnOpenChange: bool

    /** The initial `useState` values. */
    constructor (isOpen: bool, initialData: Option<Record>, hasOnOpenChange: bool)
      ensures formData == InitialForm(initialData) && !loading && error == "" && searchInputs == map[]
      ensures this.isOpen == isOpen && this.hasOnOpenChange == hasOnOpenChange
    {
      formData := InitialForm(initialData);
      loading := false;
      error := "";
      searchInputs := map[];
      this.isOpen := isOpen;
      this.hasOnOpenChange := hasOnOpenChange;
    }

    /** The effect run when `initialData` or `isOpen` changes. */
    method Reset(initialData: Option<Record>)
      modifies this
      ensures formData == InitialForm(initialData) && error == "" && searchInputs == map[]
      ensures loading == old(loading) && isOpen == old(isOpen)
    {
      formData := InitialForm(initialData);
      error := "";
      searchInputs := map[];
    }

    /** `handleChange`: store one field's new value and clear the error. */
    method HandleChange(e: ChangeEvent)
      modifies this
      ensures formData == ApplyChange(old(formData), e) && error == ""
      ensures loading == old(loading) && searchInputs == old(searchInputs) && isOpen == old(isOpen)
    {
      formData := ApplyChange(formData, e);
      error := "";
    }

    /** `handleSearchInput`: set one field's search term. */
    method HandleSearchInput(fieldName: string, value: string)
      modifies this
      ensures searchInputs == old(searchInputs)[fieldName := value]
      ensures formData == old(formData) && error == old(error) && loading == old(loading) && isOpen == old(isOpen)
    {
      searchInputs := searchInputs[fieldName := value];
    }

    /** Picking a value in a searchable select: `handleChange`, then that field's term becomes ''. */
    method PickSearchable(e: ChangeEvent)
      modifies this
      ensures formData == ApplyChange(old(formData), e) && error == ""
      ensures searchInputs == old(searchInputs)[e.name := ""]
      ensures loading == old(loading) && isOpen == old(isOpen)
    {
      HandleChange(e);
      searchInputs := searchInputs[e.name := ""];
    }

    /**
     * The Cancel button: `onOpenChange(false)`. Without the callback the
     * click handler throws (`threw`) and nothing changes.
     */
    method Cancel() returns (threw: bool)
      modifies this
      ensures threw <==> !hasOnOpenChange
      ensures hasOnOpenChange ==> !isOpen
      ensures !hasOnOpenChange ==> isOpen == old(isOpen)
      ensures formData == old(formData) && error == old(error) && loading == old(loading)
      ensures searchInputs == old(searchInputs)
    {
      threw := !hasOnOpenChange;
      if hasOnOpenChange {
        isOpen := false;
      }
    }

    /**
     * `handleSubmit`: hand the form record to `onSubmit`, whose outcome is
     * given. On success the form is emptied and `onOpenChange(false)` is
     * called; a throw shows its message; loading is cleared either way.
     */
    method HandleSubmit(outcome: SubmitOutcome) returns (submitted: Record)
      modifies this
      ensures submitted == old(formData)
      ensures !loading && searchInputs == old(searchInputs)
      ensures outcome.Saved? && hasOnOpenChange ==> formData == map[] && !isOpen && error == ""
      ensures outcome.Saved? && !hasOnOpenChange ==>
                formData == map[] && isOpen == old(isOpen) && error == OpenChangeMissingMessage
      ensures !outcome.Saved? ==>
                formData == old(formData) && isOpen == old(isOpen) && error == FailureMessage(outcome)
    {
      submitted := formData;
      loading := true;
      error := "";
      if outcome.Saved? {
        formData := map[];
        if hasOnOpenChange {
          isOpen := false;
        } else {
          // calling the missing callback throws a TypeError, which the catch shows
          error := OpenChangeMissingMessage;
        }
      } else {
        error := FailureMessage(outcome);
      }
      loading := false;
    }
  }
}
