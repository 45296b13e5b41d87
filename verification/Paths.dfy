/** Path names as the kernel resolves them, for paths without links or dot-dot parts. */
module Paths {

  /** An absolute path name. */
  type AbsPath = p: string | p != "" && p[0] == '/' witness "/"

  /** Where `p` leads from the directory `base`. */
  function Resolve(base: AbsPath, p: string): AbsPath {
    if p == "" || p == "." then base
    else if p[0] == '/' then p
    else if base[|base| - 1] == '/' then base + p
    else base + "/" + p
  }
}
