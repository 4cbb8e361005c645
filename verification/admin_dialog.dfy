/**
  What the two admin managers (src/components/admin/ProductsManager.tsx and
  src/components/admin/CategoriesManager.tsx) share: a dialog that is opened
  empty to create a record or filled to edit one, a submit that creates or
  updates depending on which, a delete behind a confirmation, and the toasts
  and dialog state once a mutation settles.
*/
module AdminDialog {
  import opened Options

  /** The dialog's `open` flag and the record it edits, if any. */
  datatype DialogState<T> = DialogState(open: bool, selected: Option<T>)

  /** `openCreateDialog`: open, editing nothing. */
  function OpenCreate<T>(d: DialogState<T>): (r: DialogState<T>)
    ensures r.open && r.selected.None?
  {
    DialogState(true, None)
  }

  /** `openEditDialog(record)`: open, editing that record. */
  function OpenEdit<T>(d: DialogState<T>, record: T): (r: DialogState<T>)
    ensures r.open && r.selected == Some(record)
  {
    DialogState(true, Some(record))
  }

  /** The request a submit sends. */
  datatype Mutation<D> = Create(data: D) | Update(id: string, data: D)

  /** `handleCreateOrUpdate…`: update the edited record by its id, or create a new one. */
  function Dispatch<T, D>(selected: Option<T>, idOf: T -> string, data: D): (r: Mutation<D>)
    ensures r.Create? <==> selected.None?
    ensures r.Update? ==> r.id == idOf(selected.value)
    ensures r.data == data
  {
    match selected
    case None => Create(data)
    case Some(x) => Update(idOf(x), data)
  }

  /** `handleDelete…`: the id to delete once the admin confirms, and nothing otherwise. */
  function DeleteRequest(confirmed: bool, id: string): (r: Option<string>)
    ensures r.Some? <==> confirmed
    ensures r.Some? ==> r.value == id
  {
    if confirmed then Some(id) else None
  }

  datatype Toast = Toast(title: string, description: string, destructive: bool)

  /** How a mutation settled: success, or an error carrying a message that may be empty. */
  datatype Settled = Succeeded | Errored(message: string)

  /** `error.message || fallback`. */
  function ErrorText(message: string, fallback: string): (r: string)
    ensures message != "" ==> r == message
    ensures message == "" ==> r == fallback
  {
    if message == "" then fallback else message
  }

  /**
    A create or update mutation settles: on success a "Success" toast and the
    dialog closes; on an error a destructive toast and the dialog stays as it was.
  */
  function AfterSave<T>(d: DialogState<T>, s: Settled, success: string, fallback: string): (r: (DialogState<T>, Toast))
    ensures s.Succeeded? ==> !r.0.open && r.1 == Toast("Success", success, false)
    ensures s.Errored? ==> r.0 == d && r.1.destructive && r.1.title == "Error"
    ensures s.Errored? && fallback != "" ==> r.1.description != ""
  {
    match s
    case Succeeded => (d.(open := false), Toast("Success", success, false))
    case Errored(m) => (d, Toast("Error", ErrorText(m, fallback), true))
  }

  /** A delete mutation settles: only a toast; the dialog is not touched. */
  function AfterDelete(s: Settled, success: string, fallback: string): (r: Toast)
    ensures r.destructive <==> s.Errored?
    ensures s.Errored? && fallback != "" ==> r.description != ""
  {
    match s
    case Succeeded => Toast("Success", success, false)
    case Errored(m) => Toast("Error", ErrorText(m, fallback), true)
  }

  /** Opening to edit and then submitting updates the record that was opened; opening to create creates. */
  lemma OpenThenDispatch<T, D>(d: DialogState<T>, record: T, idOf: T -> string, data: D)
    ensures Dispatch(OpenEdit(d, record).selected, idOf, data) == Update(idOf(record), data)
    ensures Dispatch(OpenCreate(d).selected, idOf, data) == Create(data)
  {
  }
}
