/** What moving a file does when it works and when it breaks off. */
module FileMoves {

  /** A move renames, or copies and then unlinks; it can break off before, within or between. */
  datatype MoveFault<+D> = Moved | NotMoved | PartlyCopied(left: D) | NotUnlinked

  function AfterMove<P(==), D>(fs: map<P, D>, from: P, to: P, fault: MoveFault<D>): map<P, D>
    requires from in fs
  {
    match fault
    case Moved => fs[to := fs[from]] - (if from == to then {} else {from})
    case NotMoved => fs
    case PartlyCopied(left) => if from == to then fs else fs[to := left]
    case NotUnlinked => fs[to := fs[from]]
  }
}
