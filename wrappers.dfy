/** Optional values. `None` stands for a value the indicator series leave
    undefined (a NaN in the pandas series the bot computes). */
module Wrappers {

  datatype Option<+T> = None | Some(value: T)

}
