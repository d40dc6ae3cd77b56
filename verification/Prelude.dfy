/** Small types shared by every component. */
module Prelude {

  datatype Option<+T> = None | Some(value: T)

  const PAGE_SIZE: nat := 4096

  function Min(a: int, b: int): int { if a < b then a else b }
}
