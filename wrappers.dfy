/** Small value types shared by the note store and the capture surface. */
module Wrappers {

  /** A value that may be absent (`null` in the source). */
  datatype Option<+T> = None | Some(value: T)
}

/** The toast notifications the application shows (the `sonner` library). */
module Feedback {

  datatype ToastKind = Success | Error | Info

  /** One `toast.success(...)`, `toast.error(...)` or `toast.info(...)` call. */
  datatype Toast = Toast(kind: ToastKind, message: string)

  const NoteDeleted := Toast(Success, "Nota deletada com sucesso!")
  const NoteSaved := Toast(Success, "Nota salva com sucesso!")
  const EmptyNote := Toast(Error, "É necessário criar um texto!")
  const RecordingUnsupported := Toast(Info, "Infelizmente seu navegador não suporta a API de gravação!")
}
