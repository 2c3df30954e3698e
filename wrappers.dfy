/** Optional values, for absent environment variables, files and inputs. */
module Wrappers {

  datatype Option<+T> = None | Some(value: T)
}
