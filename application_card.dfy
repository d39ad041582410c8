/** The status chip of src/components/ApplicationCard.jsx: its label
    (underscores to spaces, upper case) and its colour lookup. */
module ApplicationCard {
  import opened Js
  import opened Text
  import ApplicationDialog

  /** One character of the label: `_` becomes a space, a lower-case letter
      its capital. */
  function LabelChar(c: char): char {
    if c == '_' then ' ' else AsciiUpper(c)
  }

  /** `status.replace(/_/g, ' ').toUpperCase()` */
  function StatusLabel(status: string): (shown: string)
    ensures |shown| == |status|
    ensures forall k :: 0 <= k < |shown| ==> shown[k] == LabelChar(status[k])
  {
    if status == [] then [] else [LabelChar(status[0])] + StatusLabel(status[1..])
  }

  /** The label has no underscore and no lower-case letter, and it is
      its own label. */
  lemma StatusLabelMeaning(status: string)
    ensures forall k :: 0 <= k < |StatusLabel(status)| ==>
      StatusLabel(status)[k] != '_' && !IsAsciiLower(StatusLabel(status)[k])
    ensures StatusLabel(StatusLabel(status)) == StatusLabel(status)
  {
  }

  /** Example: `interview_scheduled` is shown as `INTERVIEW SCHEDULED`. */
  lemma InterviewScheduledLabel(status: string)
    requires status == "interview_scheduled"
    ensures StatusLabel(status) == "INTERVIEW SCHEDULED"
  {
  }

  /** `statusColors` */
  const StatusColors: map<string, string> := map[
    "applied" := "primary",
    "interview_scheduled" := "warning",
    "technical_round" := "info",
    "hr_round" := "secondary",
    "offer_received" := "success",
    "rejected" := "error"]

  /** The members every plain object inherits from `Object.prototype`. */
  const ObjectPrototypeNames: set<string> := {
    "constructor", "hasOwnProperty", "isPrototypeOf", "propertyIsEnumerable",
    "toLocaleString", "toString", "valueOf", "__proto__",
    "__defineGetter__", "__defineSetter__", "__lookupGetter__", "__lookupSetter__"}

  /** What `statusColors[status]` yields: one of the map's colours, a member
      inherited from `Object.prototype`, or `undefined`. */
  datatype ChipColor = Named(color: string) | Inherited(member: string) | Undefined

  /** `statusColors[status]` on the plain object `statusColors`. */
  function ColorOf(status: string): (c: ChipColor)
    ensures c.Named? <==> status in StatusColors
    ensures c.Named? ==> c.color == StatusColors[status]
    ensures c.Inherited? <==> status in ObjectPrototypeNames
    ensures c.Undefined? <==> status !in StatusColors && status !in ObjectPrototypeNames
  {
    if status in StatusColors then Named(StatusColors[status])
    else if status in ObjectPrototypeNames then Inherited(status)
    else Undefined
  }

  /** The colour map covers exactly the six statuses of the form's menu,
      with six different colours. */
  lemma ColorsCoverStatuses()
    ensures StatusColors.Keys == set s | s in ApplicationDialog.StatusChoices
    ensures forall a, b :: a in StatusColors && b in StatusColors && a != b ==> StatusColors[a] != StatusColors[b]
  {
  }

  /** A status outside the menu gets no colour of the map: `undefined`,
      unless it names an inherited member of every object. */
  lemma UnknownStatusHasNoColor(status: string)
    requires status !in ApplicationDialog.StatusChoices
    ensures !ColorOf(status).Named?
    ensures status !in ObjectPrototypeNames ==> ColorOf(status) == Undefined
  {
    ColorsCoverStatuses();
  }

  /** A status spelled like an inherited member, such as `toString`, picks
      up that member instead of a colour. */
  lemma InheritedMemberExample()
    ensures ColorOf("toString") == Inherited("toString")
  {
  }
}
