/** Optional values. `None` stands for JavaScript's `undefined` wherever the
    modelled code can produce it (a path lookup that found nothing, a missing
    command argument, a cancelled dialog). */
module Wrappers {

  datatype Option<+T> = None | Some(value: T)
}
