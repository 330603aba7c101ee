/** Optional values, standing in for the exceptions the game throws on
 *  inputs it does not recognise. */
module Wrappers {

  datatype Option<T> = None | Some(value: T)
}
