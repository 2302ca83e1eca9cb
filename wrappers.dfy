/** Optional values: the `null` / missing-row results of the bot's lookups. */
module Wrappers {

  datatype Option<+T> = None | Some(value: T)

}
