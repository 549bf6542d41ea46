/**
 * The edit form: it keeps one draft record, starts it from the record it is
 * opened on, resets it when that record changes, updates one property per
 * input change, and hands the draft to the screen's save handler on submit.
 * Close, Cancel and a click on the backdrop only toggle the form.
 */
module TodoModal {
  import opened Wrappers
  import opened Json
  import opened TodoApp

  /** What a change event stores: a checkbox its `checked` flag, any other input its text. */
  function InputValue(inputType: string, value: string, checked: bool): Value {
    if inputType == "checkbox" then Bool(checked) else Str(value)
  }

  /**
   * The draft after a change event on the input named `name`: that one
   * property takes the input's value, every other property (`id` included)
   * is kept, and a property the draft lacked is added.
   */
  function Changed(draft: Fields, name: string, inputType: string, value: string, checked: bool): (d: Fields)
    ensures Get(d, name) == Some(InputValue(inputType, value, checked))
    ensures forall k | k != name :: Get(d, k) == Get(draft, k)
    ensures KeysOf(d) == KeysOf(draft) + {name}
    ensures UniqueKeys(draft) ==> UniqueKeys(d)
  {
    var v := InputValue(inputType, value, checked);
    SetGetAll(draft, name, v);
    SetKeys(draft, name, v);
    Set(draft, name, v)
  }

  /** The title input is `required`: the form submits only with a non-empty title. */
  predicate HasTitle(draft: Fields) {
    var t := Get(draft, "title");
    t.Some? && t.value.Str? && t.value.s != ""
  }

  class Modal {
    /** The record the form was opened on (the `activeItem` prop). */
    var activeItem: Fields
    /** The draft (the `item` state). */
    var item: Fields

    ghost predicate Valid()
      reads this
    {
      UniqueKeys(item)
    }

    /** The draft starts as the record the form is opened on. */
    constructor (active: Fields)
      requires UniqueKeys(active)
      ensures Valid() && activeItem == active && item == active
    {
      activeItem := active;
      item := active;
    }

    /** The effect on `activeItem`: a new record replaces the draft, edits and all. */
    method ActiveItemChanged(active: Fields)
      requires UniqueKeys(active)
      modifies this
      ensures Valid() && activeItem == active && item == active
    {
      activeItem := active;
      item := active;
    }

    /** `handleChange` for an event from the input named `name`. */
    method HandleChange(name: string, inputType: string, value: string, checked: bool)
      requires Valid()
      modifies this`item
      ensures Valid() && item == Changed(old(item), name, inputType, value, checked)
    {
      var v := InputValue(inputType, value, checked);
      SetKeys(item, name, v);
      item := Set(item, name, v);
    }

    /**
     * `handleSubmit`: calls the screen's save handler once, with the draft as
     * it stands; the draft itself is not touched, and the body sent is a
     * well-formed object with unique keys.
     */
    method HandleSubmit(app: App, save: Outcome, list: Outcome)
      requires Valid() && HasTitle(item)
      requires app.Valid() && (list.Resolved? ==> WellFormed(list.data))
      modifies app
      ensures app.Valid() && app.Model() == Submitted(old(app.Model()), item, save, list)
      ensures app.issued[|old(app.issued)|].body == Some(item) && UniqueKeys(item)
    {
      app.HandleSubmit(item, save, list);
    }

    /** Close, Cancel and the backdrop: the form is toggled and nothing is saved. */
    method Dismiss(app: App)
      requires app.Valid()
      modifies app
      ensures app.Valid() && app.Model() == old(app.Model()).(modal := !old(app.modal))
    {
      app.Toggle();
    }
  }
}
