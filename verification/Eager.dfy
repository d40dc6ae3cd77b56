/** The specification of fork: every page is copied at once, so an address space
    owns its pages; only device memory is shared. */
module Eager {
  import opened CowSpec

  datatype View =
    | Private(bytes: Page, w: bool, x: bool)
    | Device(frame: int, w: bool, x: bool)

  datatype World = World(pages: map<Key, View>, devices: map<int, Page>)

  function CopyPage(s: World, parent: Key, child: Key): World
    requires parent in s.pages
  {
    s.(pages := s.pages[child := s.pages[parent]])
  }

  function StorePage(s: World, k: Key, off: nat, b: bv8): (World, bool) {
    if k !in s.pages || !s.pages[k].w then (s, false)
    else
      match s.pages[k]
      case Private(bytes, w, x) => (s.(pages := s.pages[k := Private(Store(bytes, off, b), w, x)]), true)
      case Device(f, _, _) =>
        (s.(devices := s.devices[f := Store(Contents(s.devices, f), off, b)]), true)
  }

  function Protect(s: World, k: Key, w: bool, x: bool): World {
    if k !in s.pages then s else s.(pages := s.pages[k := s.pages[k].(w := w, x := x)])
  }

  function Map(s: World, k: Key, page: Page, w: bool, x: bool): World {
    s.(pages := s.pages[k := Private(page, w, x)])
  }

  function Drop(s: World, k: Key): World { s.(pages := s.pages - {k}) }
}
