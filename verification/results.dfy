/** Option and Result values shared by every module of the model.

    A Go function returning `(T, error)` is modelled as a `Result<T>` whose
    failure carries the text the error would render with `Error()`; Go's
    `fmt.Errorf("context: %w", err)` becomes `"context: " + err`. */
module Results {

  datatype Option<+T> = None | Some(value: T)

  datatype Result<+T> = Ok(value: T) | Err(error: string)
}
