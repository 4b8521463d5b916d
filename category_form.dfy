/** The category dialog's form: a name and a colour. */
module CategoryForm {
  import opened Common
  import opened Text
  import opened Records
  import CategoryStore

  /** The colour every new category starts with. */
  const DefaultColor := "#2563eb"

  /** The eight swatches offered for one-click picking, in display order. */
  const PresetColors: seq<string> :=
    ["#2563eb", "#dc2626", "#059669", "#d97706", "#7c3aed", "#db2777", "#0891b2", "#65a30d"]

  const NameRequired := "Category name is required"

  /** The empty form. */
  const Defaults := CategoryDraft("", DefaultColor)

  /** The form filled from a stored category (`category.name || ""`,
      `category.color || "#2563eb"`). */
  function FromCategory(c: Category): (fd: CategoryDraft)
    ensures fd.color != ""
    ensures fd.name == c.name
    ensures c.color != "" ==> fd.color == c.color
    ensures c.color == "" ==> fd.color == DefaultColor
  {
    CategoryDraft(c.name, if c.color == "" then DefaultColor else c.color)
  }

  /** `validateForm`'s error object: a name error exactly when the name is
      blank or white space, and no other key. */
  function Validate(fd: CategoryDraft): (errors: map<string, string>)
    ensures "name" in errors <==> AllSpace(fd.name)
    ensures errors.Keys <= {"name"}
    ensures "name" in errors ==> errors["name"] == NameRequired
  {
    TrimEmptyIff(fd.name);
    if Trim(fd.name) == "" then map["name" := NameRequired] else map[]
  }

  /** Creating a category from the form and reopening it shows the same form
      when a colour was chosen. */
  lemma CreateThenEditForm(id: string, fd: CategoryDraft)
    requires fd.color != ""
    ensures FromCategory(CategoryStore.NewCategory(id, fd)) == fd
  {
  }

  /** Saving an edit and reopening the category shows exactly what was saved,
      whatever the category held before. */
  lemma UpdateThenEditForm(stored: Category, fd: CategoryDraft)
    requires fd.color != ""
    ensures FromCategory(CategoryStore.Merged(stored, fd)) == fd
  {
  }

  predicate IsHexDigit(c: char) {
    '0' <= c <= '9' || 'a' <= c <= 'f'
  }

  /** Every preset is a "#rrggbb" colour value, and no two presets are equal,
      so at most one swatch is drawn as the selected one. */
  lemma PresetsAreColours(k: nat)
    requires k < |PresetColors|
    ensures |PresetColors[k]| == 7 && PresetColors[k][0] == '#'
    ensures forall j :: 1 <= j < 7 ==> IsHexDigit(PresetColors[k][j])
    ensures forall m :: 0 <= m < |PresetColors| && m != k ==> PresetColors[m] != PresetColors[k]
  {
  }

  /** One change event. */
  datatype FieldEdit = Name(name: string) | Color(color: string) {
    function Field(): string {
      match this
      case Name(_) => "name"
      case Color(_) => "color"
    }
  }

  /** `{ ...prev, [field]: value }`: the named field takes the value, the
      other keeps its own. */
  function Apply(fd: CategoryDraft, e: FieldEdit): (r: CategoryDraft)
    ensures e.Name? ==> r.name == e.name && r.color == fd.color
    ensures e.Color? ==> r.color == e.color && r.name == fd.name
  {
    match e
    case Name(v) => fd.(name := v)
    case Color(v) => fd.(color := v)
  }

  /** Picking a colour never changes whether the form is accepted. */
  lemma ColourEditKeepsValidity(fd: CategoryDraft, v: string)
    ensures Validate(Apply(fd, Color(v))) == Validate(fd)
  {
  }

  class CategoryFormState {
    /** The category being edited, or none when the form creates one. */
    const category: Option<Category>
    var formData: CategoryDraft
    var errors: map<string, string>
    var isSubmitting: bool

    /** The initial state and the effect on `category`. */
    constructor (category: Option<Category>)
      ensures this.category == category
      ensures category.None? ==> formData == Defaults
      ensures category.Some? ==> formData == FromCategory(category.value)
      ensures errors == map[] && !isSubmitting
    {
      this.category := category;
      formData := if category.Some? then FromCategory(category.value) else Defaults;
      errors := map[];
      isSubmitting := false;
    }

    /** `handleChange`: the field takes the value and an error shown for it is
        replaced by "". */
    method Change(e: FieldEdit)
      modifies this`formData, this`errors
      ensures formData == Apply(old(formData), e)
      ensures errors.Keys == old(errors).Keys
      ensures forall k :: k in errors && k != e.Field() ==> errors[k] == old(errors)[k]
      ensures e.Field() in errors ==> errors[e.Field()] == ""
    {
      formData := Apply(formData, e);
      if e.Field() in errors && errors[e.Field()] != "" {
        errors := errors[e.Field() := ""];
      }
    }

    /** Clicking the k-th swatch. */
    method PickPreset(k: nat)
      requires k < |PresetColors|
      modifies this`formData, this`errors
      ensures formData == old(formData).(color := PresetColors[k])
      ensures errors.Keys == old(errors).Keys
      ensures forall key :: key in errors && key != "color" ==> errors[key] == old(errors)[key]
    {
      Change(Color(PresetColors[k]));
    }

    /** `handleSubmit`: an invalid form sends nothing; a valid one sends the
        form itself. Only an accepted creation clears the form. */
    method Submit(accepted: bool) returns (sent: Option<CategoryDraft>)
      modifies this`formData, this`errors, this`isSubmitting
      ensures errors == Validate(old(formData))
      ensures sent.Some? <==> !AllSpace(old(formData).name)
      ensures sent.Some? ==> sent.value == old(formData) && !isSubmitting
      ensures sent.None? ==> isSubmitting == old(isSubmitting)
      ensures formData == (if sent.Some? && accepted && category.None? then Defaults else old(formData))
    {
      errors := Validate(formData);
      if |errors| != 0 {
        sent := None;
        return;
      }
      isSubmitting := true;
      sent := Some(formData);
      if accepted && category.None? {
        formData := Defaults;
      }
      isSubmitting := false;
    }
  }
}
