# Pizza order form: a Dafny model

This project models the logic of the pizza order form in
`frontend/components/Form.js`. The form holds three values: the customer's full
name, a size code, and a list of topping ids. A validation schema decides
whether the order may be submitted. The full name, once trimmed, must be 3 to
20 characters long, and the size must be one of `"S"`, `"M"`, `"L"`. The
toppings are an unconstrained list of strings.

Each change event updates the values. Ticking a topping appends its id, and
unticking it filters every copy of that id out. A text or select input replaces
only the field it names. After each change, the edited field is re-validated,
and the submit button is enabled exactly when the whole form validates.

On submit, the form first builds a confirmation message from the current
values, then posts the order. If the post is accepted, the message is shown,
the failure banner is cleared and the values are reset. If it is rejected, the
server's message is shown and the success banner is cleared.

Modules:

- `FormSchema` (`form_schema.dfy`): the values record, `trim` over the
  ECMAScript white-space set, the whole-form predicate `IsValid`, and the
  single-field rule `Violations` with the schema's error messages.
- `Confirmation` (`confirmation.dfy`): `buildConfirmationStr` as a pure
  function. It maps the size code to a word, and it renders the topping count
  in decimal with its plural rule.
- `FormController` (`form_controller.dfy`): the change events, the topping-list
  filter, the spec function `Changed`, and the class `Form`. The class has the
  component's five state variables as fields and `OnChange`/`OnSubmit` as
  methods. The network outcome is a parameter of `OnSubmit`.

Three behaviours of the code are worth stating plainly, because a reader might
expect otherwise:

- With no toppings, the message says "no toppings" (plural). `topp` starts as
  `'toppings'` and becomes singular only for exactly one topping.
- The toppings are a list, not a set. Every check appends the id, and nothing
  prevents a duplicate. `RenderedChangesKeepToppingsWellFormed` shows that
  events from the rendered checkboxes keep the list duplicate-free and inside
  the catalog.
- Submitting clears no banner up front. Once the post resolves, each outcome
  sets its own banner and clears only the other one.

## Model

| member | source | states |
|---|---|---|
| FormSchema.InitialValues | frontend/components/Form.js:35-39 | the initial values (empty name, empty size, no toppings) do not validate, so submission starts disabled; no valid form shares their name or size |
| FormSchema.LeadingWhitespace | frontend/components/Form.js:14 | the count of leading characters `trim` drops stays within the string, and the character after them is not white space |
| FormSchema.LeadingIsWhitespace | frontend/components/Form.js:14 | every leading character `trim` drops is white space |
| FormSchema.TrailingStart | frontend/components/Form.js:14 | where the trailing part `trim` drops begins lies within the string, and the character before it is not white space |
| FormSchema.TrailingIsWhitespace | frontend/components/Form.js:14 | every trailing character `trim` drops is white space |
| FormSchema.Trim | frontend/components/Form.js:14 | the string's `trim()`: the white space `LeadingWhitespace` counts and the white space from `TrailingStart` on are cut off. Its properties are the contracts of `TrimEnds`, `TrimSplit` and `TrimOfPadded` |
| FormSchema.TrimEnds | frontend/components/Form.js:14 | what `trim` leaves is empty or has no white space at either end |
| FormSchema.TrimSplit | frontend/components/Form.js:14 | every string is its trim with white-space padding on both sides, and the trim has no white space at either end |
| FormSchema.TrimOfPadded | frontend/components/Form.js:14 | reference characterisation of `trim`: white-space padding around a string whose ends are not white space is removed exactly |
| FormSchema.TrimIgnoresPadding | frontend/components/Form.js:14 | adding white space on either side of a name never changes its trimmed form |
| FormSchema.TrimUnpadded | frontend/components/Form.js:14 | a string with no white space at its ends is its own trim |
| FormSchema.TrimIdempotent | frontend/components/Form.js:14 | trimming twice is the same as trimming once |
| FormSchema.NameViolations | frontend/components/Form.js:14-17 | the full-name rules a name breaks are among too-short, too-long and required, and it breaks none exactly when its trimmed length is 3 to 20 |
| FormSchema.SizeViolations | frontend/components/Form.js:18-20 | the size rules a value breaks are among oneOf and required, and it breaks none exactly when it is "S", "M" or "L" |
| FormSchema.IsValid | frontend/components/Form.js:13-23 | whole-form validation, as `formSchema.isValid` decides it: the trimmed name is 3 to 20 long and the size is a size code. Its properties are the contracts of `ValidIffNoViolations`, `InitialValues` and `ValidityIgnoresPadding` |
| FormSchema.Violations | frontend/components/Form.js:13-20 | single-field validation: a field's value breaks no rule exactly when it is accepted (trimmed name 3..20 long; size one of S, M, L); the reported messages are only that field's schema messages, never empty |
| FormSchema.ValidIffNoViolations | frontend/components/Form.js:13-23 | whole-form validity holds iff neither field has a violation, and the toppings never affect validity |
| FormSchema.ValidityIgnoresPadding | frontend/components/Form.js:14-16 | because the length rules apply after trimming, white space around the name never changes validity |
| FormSchema.ValidityExamples | frontend/components/Form.js:6-20 | "Al" breaks only the too-short rule; a blank name breaks too-short and required; an empty size breaks oneOf and required; "Ann"/"M" is valid |
| Confirmation.NatToDecimal | frontend/components/Form.js:109 | the rendered topping count is a non-empty string of decimal digits with no leading zero, one digit exactly for counts below ten |
| Confirmation.DigitValue | frontend/components/Form.js:109 | a digit character's value is below ten and renders back as that character |
| Confirmation.DecimalRoundTrip | frontend/components/Form.js:109 | reading the rendered count back as a decimal gives the count |
| Confirmation.NatToDecimalInjective | frontend/components/Form.js:109 | two counts render alike exactly when they are equal |
| Confirmation.SizeWord | frontend/components/Form.js:94-100 | "small" iff the code is "S", "medium" iff "M", "large" for every other code including "" and "L" |
| Confirmation.Greeting | frontend/components/Form.js:90 | the first sentence of the message; its contract is `GreetingParts` |
| Confirmation.GreetingParts | frontend/components/Form.js:90 | the first sentence is "Thank you for your order, ", then the name verbatim, then "!" |
| Confirmation.ToppingPhrase | frontend/components/Form.js:92-110 | zero toppings give "no toppings", one gives "1 topping", n of two or more give the decimal n then " toppings" |
| Confirmation.ToppingPhraseInjective | frontend/components/Form.js:102-110 | two topping counts give the same phrase exactly when they are equal |
| Confirmation.Sentence | frontend/components/Form.js:106-110 | the second sentence of the message; its contract is `SentenceParts` |
| Confirmation.SentenceParts | frontend/components/Form.js:106-110 | the second sentence starts with " Your ", holds the size word right after it, and ends with " is on the way." |
| Confirmation.BuildConfirmationStr | frontend/components/Form.js:87-113 | the message starts with "Thank you for your order, " + name + "!" and ends with " is on the way." |
| Confirmation.SizeWordInMessage | frontend/components/Form.js:90-109 | the size word's first letter stands right after "Thank you for your order, <name>!" and " Your " |
| Confirmation.MessageDeterminesName | frontend/components/Form.js:90 | for the same size and topping count, two messages are equal iff the names are equal |
| Confirmation.MessageDeterminesSizeWord | frontend/components/Form.js:94-110 | for the same name and topping count, two messages are equal iff they name the same size word |
| Confirmation.MessageDeterminesToppingCount | frontend/components/Form.js:102-110 | for the same name and size, two messages are equal iff the orders have the same number of toppings |
| FormController.InitialErrors | frontend/components/Form.js:41-45 | the form starts with no error message under either field |
| FormController.CatalogIds | frontend/components/Form.js:27-33 | the topping catalog (`Toppings`) offers exactly the ids "1" to "5", each once |
| FormController.Without | frontend/components/Form.js:70 | unchecking removes every occurrence of the id and keeps every other id with its multiplicity |
| FormController.WithoutConcat | frontend/components/Form.js:70 | filtering distributes over concatenation, so the ids that remain keep their original order |
| FormController.WithoutAbsent | frontend/components/Form.js:70 | filtering out an id that is not in the list leaves the list unchanged |
| FormController.WithoutKeepsDistinct | frontend/components/Form.js:70 | filtering keeps a list of distinct ids distinct |
| FormController.ValidatedField | frontend/components/Form.js:61-78 | the field `yup.reach` re-validates is the one the event names: the edited field for a text or select input; for a checkbox, the field whose key is its name, and none for "toppings" or any other name |
| FormController.Changed | frontend/components/Form.js:59-76 | a change touches only the field it names. Checking appends the id at the end, keeps earlier entries and allows duplicates. Unchecking removes every copy of the id. A text or select input sets only its field. A checkbox with another name changes no value |
| FormController.CheckThenUncheckRestores | frontend/components/Form.js:67-70 | checking an id that is absent and then unchecking it restores the original values |
| FormController.UncheckIdempotent | frontend/components/Form.js:69-70 | unchecking the same id twice is the same as unchecking it once |
| FormController.RenderedChangesKeepToppingsWellFormed | frontend/components/Form.js:172-181 | for events the rendered catalog checkboxes produce, the list stays duplicate-free and holds only catalog ids |
| FormController.Form.Valid | frontend/components/Form.js:55-57 | the invariant every method keeps: submission is enabled exactly when the current values validate |
| FormController.Form.constructor | frontend/components/Form.js:49-53 | the component starts disabled, with the initial values, no field errors and both banners empty |
| FormController.Form.OnChange | frontend/components/Form.js:55-85 | the new values are `Changed(old values, event)`, and submission is enabled iff they validate. For the field the event's name selects (`ValidatedField`), the error becomes "" iff the event's value breaks no rule of that field, and otherwise one of the broken rules' messages; the other field's error is kept. That includes a checkbox named after a field. An event that selects no field leaves the errors alone, and the banners never change |
| FormController.Form.OnSubmit | frontend/components/Form.js:115-132 | on acceptance, the success banner is the message built from the values before the post; the failure banner is cleared and the values reset to the initial ones, which disables submission. On rejection, the failure banner is the server's message, the success banner is cleared and the values are kept. With no response, nothing changes; the field errors are never touched |
| FormController.OrderSession | frontend/components/Form.js:59-131 | picking size M, typing "Ann", ticking topping 1 and having the post accepted shows the confirmation for that order and resets the form |

## Left out

- JSX rendering, the checkbox and select markup, and the routing shell in
  `frontend/components/App.js` are presentation only. The catalog of toppings
  is kept, as `Toppings`, because the rendered checkboxes define which events
  can occur.
- The axios POST to the order endpoint is network I/O. Its outcome is the
  `PostOutcome` parameter of `OnSubmit`. `Rejected(None)` stands for a refusal
  whose body carries no `message`.
  - `NoResponse` stands for a failure without an HTTP response. There,
    reading `err.response.data` throws inside the handler, so nothing is set.
- The asynchronous `useEffect` revalidation and the order in which promises
  complete are event-loop scheduling. Validation is applied at once: `Valid()`
  states that `formEnabled` equals `IsValid(values)` after every method.
  The stale `errors` captured by the handler's closure is not modelled either.
- FormController.Form.OnChange: which message the schema reports first for a
  field that breaks several rules is library behaviour that is not visible
  here. The contract says only that it is one of the broken rules' messages.
- FormController.Form.OnChange: for a checkbox named "toppings", the schema
  validates the single id against the toppings array rule. What that yields is
  library behaviour that is not visible here. The model keeps the toppings
  `errors` entry out and leaves the field errors unchanged for that event.
- FormController.Form.OnChange: for a checkbox whose name is no key of the
  schema, `yup.reach` throws after the values update, which leaves the values
  as they were. The model changes nothing, as the code does, but it does not
  model the thrown error.
- `trim` removes the ECMAScript white-space and line-terminator characters
  listed in `IsWhitespace`. Lengths count Dafny characters, which are Unicode
  scalar values, not UTF-16 code units. A name with characters outside the
  Basic Multilingual Plane is therefore shorter in the model than in a browser.
