// The "Save as Template" dialog: it builds a template from the page's current
// generation parameters and the typed name, hands it to the page, then clears
// the name and closes. The id and the creation time are parameters.
module SaveTemplateModal {
  import opened Common
  import opened QuizTypes
  import Text

  const UntitledTemplate: string := "Untitled Template"

  /** `templateName.trim() || 'Untitled Template'`. */
  function TemplateName(input: string): (name: string)
    ensures Text.IsBlank(input) ==> name == UntitledTemplate
    ensures !Text.IsBlank(input) ==> name == Text.Trim(input)
  {
    Text.TrimEmptyIffBlank(input);
    var trimmed := Text.Trim(input);
    if trimmed != "" then trimmed else UntitledTemplate
  }

  /** A stored name is never empty and carries no surrounding whitespace. */
  lemma TemplateNameIsTrimmed(input: string)
    ensures TemplateName(input) != ""
    ensures Text.Trim(TemplateName(input)) == TemplateName(input)
  {
    if !Text.IsBlank(input) {
      Text.TrimIdempotent(input);
      Text.TrimEmptyIffBlank(input);
    } else {
      UntitledIsTrimmed();
    }
  }

  lemma UntitledIsTrimmed()
    ensures Text.Trim(UntitledTemplate) == UntitledTemplate
  {
    var u := UntitledTemplate;
    assert !Text.IsJsWhitespace(u[0]) && !Text.IsJsWhitespace(u[|u| - 1]);
    assert Text.TrimStart(u) == u;
    assert Text.TrimEnd(u) == u;
  }

  /** The generation parameters a template hands back when it is loaded. */
  function ParametersOf(t: Template): TemplateData {
    TemplateData(t.prompt, t.numberOfQuestions, t.difficulty, t.subject)
  }

  /** The record `handleSave` builds: a fresh id and time, the defaulted name, and
      the parameters copied unchanged, so that loading the template later asks for
      exactly the generation it was saved from. */
  function NewTemplate(nameInput: string, data: TemplateData, id: string, now: int): (t: Template)
    ensures t.id == id && t.createdAt == now && t.name == TemplateName(nameInput)
    ensures ParametersOf(t) == data
  {
    Template(id, TemplateName(nameInput), data.prompt, data.numberOfQuestions, data.difficulty, data.subject, now)
  }

  class SaveTemplateDialog {
    /** The text in the name field. */
    var templateName: string

    constructor ()
      ensures templateName == ""
    {
      templateName := "";
    }

    method SetTemplateName(input: string)
      modifies this
      ensures templateName == input
    {
      templateName := input;
    }

    /** The template `handleSave` passes to `onSave`. A closed dialog renders
        nothing, so no template comes out of it. */
    method BuildTemplate(isOpen: bool, data: TemplateData, id: string, now: int) returns (t: Option<Template>)
      ensures t.None? <==> !isOpen
      ensures t.Some? ==> t.value == NewTemplate(templateName, data, id, now)
    {
      if !isOpen {
        return None;
      }
      var name := TemplateName(templateName);
      t := Some(Template(id, name, data.prompt, data.numberOfQuestions, data.difficulty, data.subject, now));
    }

    /** `setTemplateName('')` once `onSave` has returned. */
    method Clear()
      modifies this
      ensures templateName == ""
    {
      templateName := "";
    }
  }
}
