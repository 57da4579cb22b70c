/**
 * The validation and choice rules of the shop's forms: the date-order check
 * of the promotion form, the parent choices of the category form and the
 * availability choices of the product search form.
 */
module Forms {
  import opened Common
  import opened Models
  import opened Views
  import Queryset

  // ---------------------------------------------------------------------------
  // PromotionForm.clean

  /** The cleaned fields of a promotion form; a date the form did not get is `None`. */
  datatype PromotionData = PromotionData(
    title: string,
    description: string,
    discountPercent: Option<nat>,
    startDate: Option<int>,
    endDate: Option<int>,
    isActive: bool)

  /** The form error raised for a window that ends no later than it starts. */
  const EndBeforeStart: string := "end date must be later than start date"

  /** The dates clash: both are given and the end is not after the start. */
  predicate DatesClash(data: PromotionData)
  {
    data.startDate.Some? && data.endDate.Some? && data.startDate.value >= data.endDate.value
  }

  /** `clean`: the data back unchanged, or the date error. */
  function CleanPromotion(data: PromotionData): (r: Result<PromotionData, string>)
    ensures r.Failure? <==> DatesClash(data)
    ensures r.Success? ==> r.value == data
    ensures r.Failure? ==> r.error == EndBeforeStart
  {
    if DatesClash(data) then Failure(EndBeforeStart) else Success(data)
  }

  /** A window that starts and ends at the same instant is refused. */
  lemma EqualDatesRejected(data: PromotionData)
    requires data.startDate.Some? && data.endDate == data.startDate
    ensures CleanPromotion(data).Failure?
  {
  }

  /** A missing date never triggers the date error. */
  lemma MissingDateAccepted(data: PromotionData)
    requires data.startDate.None? || data.endDate.None?
    ensures CleanPromotion(data) == Success(data)
  {
  }

  /** The promotion an accepted form with both dates saves. */
  function SavedPromotion(id: int, data: PromotionData): Promotion
    requires data.startDate.Some? && data.endDate.Some?
  {
    Promotion(id, data.discountPercent, data.startDate.value, data.endDate.value, data.isActive)
  }

  /**
   * An accepted, active promotion with both dates ends strictly after it
   * starts and is valid at both ends of its window.
   */
  lemma AcceptedWindowIsOpen(id: int, data: PromotionData)
    requires data.startDate.Some? && data.endDate.Some? && data.isActive
    requires CleanPromotion(data).Success?
    ensures IsValid(SavedPromotion(id, data), data.startDate.value)
    ensures IsValid(SavedPromotion(id, data), data.endDate.value)
    ensures data.startDate.value < data.endDate.value
  {
  }

  // ---------------------------------------------------------------------------
  // CategoryForm.__init__

  /**
   * The parent choices: when the form edits a saved category (its key is
   * present and not zero), every category but that one; otherwise all of them.
   */
  function ParentChoices(categories: seq<Category>, instancePk: Option<int>): (r: seq<Category>)
    ensures |r| <= |categories|
    ensures instancePk.Some? && instancePk.value != 0 ==>
              forall c :: c in r <==> c in categories && c.id != instancePk.value
  {
    if instancePk.Some? && instancePk.value != 0 then Excluding(categories, instancePk.value)
    else categories
  }

  /** `.exclude(pk=id)`: the categories other than `id`, in order. */
  function Excluding(categories: seq<Category>, id: int): (r: seq<Category>)
    ensures |r| <= |categories|
    ensures forall c :: c in r <==> c in categories && c.id != id
  {
    if categories == [] then []
    else (if categories[0].id == id then [] else [categories[0]]) + Excluding(categories[1..], id)
  }

  /** A new category (no key, or the falsy key 0) may take any category as parent. */
  lemma NewCategoryMayTakeAnyParent(categories: seq<Category>, instancePk: Option<int>)
    requires instancePk.None? || instancePk == Some(0)
    ensures ParentChoices(categories, instancePk) == categories
  {
  }

  /**
   * Editing excludes only the category itself: one of its own
   * sub-categories is still offered as its parent.
   */
  lemma EditingKeepsDescendants(categories: seq<Category>, pk: int, child: Category)
    requires pk != 0 && child in categories && child.parent == Some(pk) && child.id != pk
    ensures child in ParentChoices(categories, Some(pk))
  {
  }

  /** Excluding a key no category has leaves the choices as they are, in order. */
  lemma {:induction false} EditingKeepsOrder(categories: seq<Category>, pk: int)
    requires forall i :: 0 <= i < |categories| ==> categories[i].id != pk
    ensures Excluding(categories, pk) == categories
  {
    if categories != [] {
      EditingKeepsOrder(categories[1..], pk);
    }
  }

  // ---------------------------------------------------------------------------
  // ProductSearchForm.available

  /** The values of the availability choice field: all products, available, unavailable. */
  const AvailableChoiceValues: seq<string> := ["", "true", "false"]

  /**
   * The list view gives every choice its intended meaning: the blank choice
   * imposes nothing, "true" and "false" keep the available and the
   * unavailable products.
   */
  lemma AvailableChoicesMatchCatalogue()
    ensures AvailabilityConditions(Some(AvailableChoiceValues[0])) == []
    ensures AvailabilityConditions(Some(AvailableChoiceValues[1])) == [Queryset.AvailableIs(true)]
    ensures AvailabilityConditions(Some(AvailableChoiceValues[2])) == [Queryset.AvailableIs(false)]
    ensures forall v :: v in AvailableChoiceValues && v != "" ==> AvailabilityConditions(Some(v)) != []
  {
    assert "true" != "false";
  }
}
