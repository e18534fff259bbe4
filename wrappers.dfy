/** Optional values: `None` stands for a JavaScript result that is not a usable value
    (a `NaN` from `parseInt`, a fetch that rejected). */
module Wrappers {

  datatype Option<+T> = None | Some(value: T)

}
