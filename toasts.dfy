/** The notice shown by `showToast(message, type)` (src/provider/ToastProvider.tsx). */
module Toasts {

  datatype ToastKind = SuccessToast | ErrorToast | WarningToast | InfoToast

  datatype Toast = Toast(message: string, kind: ToastKind)
}
