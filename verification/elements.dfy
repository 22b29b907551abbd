/** Identity and reporting types shared by every element of a plan tree (Plan, Phase, Step). */
module Elements {

  /** An element id. The source draws these from UUID.randomUUID(); here they are opaque values chosen by the caller. */
  type Uuid = nat

  /** The type tag a command response reports for an element. */
  datatype ElementKind = PlanElement | PhaseElement | StepElement

  /** What a command response lists for one element: id, name and type tag. */
  datatype ElementRef = ElementRef(id: Uuid, name: string, kind: ElementKind)

  /** An operation that reports the elements it changed, paired with the element after the operation. */
  datatype Touched<T> = Touched(changed: seq<ElementRef>, value: T)

  /** An interrupt or proceed call: the boolean it returns, paired with the object after the call. */
  datatype Flipped<T> = Flipped(returned: bool, value: T)
}
