/** The Option type shared by the model: `None` stands for a Python call that
    raised (or a lookup that found nothing), `Some` for a value. */
module Wrappers {

  datatype Option<+T> = None | Some(value: T)
}
