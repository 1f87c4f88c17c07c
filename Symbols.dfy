// Grammar symbols (include/grammar/symbol.h): a kind and a name. Two
// symbols are equal exactly when kind and name agree, which is the
// structural equality of the datatype.
module Symbols {

  /** The name the epsilon symbol carries. */
  const EPS: string := "epsilon"

  datatype SymbolType = Terminal | NonTerminal | Epsilon | End

  datatype Symbol = Symbol(ty: SymbolType, name: string)
  {
    predicate IsTerminal() { ty == Terminal }
    predicate IsNonTerminal() { ty == NonTerminal }
    predicate IsEpsilon() { ty == Epsilon }
    predicate IsEnd() { ty == End }
  }

  /** `T(name)`, alias of `Symbol::Terminal(name)`. */
  function T(name: string): (s: Symbol)
    ensures s.IsTerminal() && s.name == name
  {
    Symbol(Terminal, name)
  }

  /** `NT(name)`, alias of `Symbol::NonTerminal(name)`. */
  function NT(name: string): (s: Symbol)
    ensures s.IsNonTerminal() && s.name == name
  {
    Symbol(NonTerminal, name)
  }

  /** `Symbol::Epsilon()`. */
  function Eps(): (s: Symbol)
    ensures s.IsEpsilon() && s.name == "epsilon"
  {
    Symbol(Epsilon, EPS)
  }

  /** `Symbol::End()`, the end-of-input marker `$`. */
  function EndMark(): (s: Symbol)
    ensures s.IsEnd() && s.name == "$"
  {
    Symbol(End, "$")
  }

  /** Exactly one of the four kind predicates holds of every symbol. */
  lemma ExactlyOneKind(s: Symbol)
    ensures s.IsTerminal() || s.IsNonTerminal() || s.IsEpsilon() || s.IsEnd()
    ensures !(s.IsTerminal() && s.IsNonTerminal()) && !(s.IsTerminal() && s.IsEpsilon())
    ensures !(s.IsTerminal() && s.IsEnd()) && !(s.IsNonTerminal() && s.IsEpsilon())
    ensures !(s.IsNonTerminal() && s.IsEnd()) && !(s.IsEpsilon() && s.IsEnd())
  {
  }

  /** A terminal and a non-terminal never compare equal, even with the same name. */
  lemma TerminalIsNotNonTerminal(a: string, b: string)
    ensures T(a) != NT(b)
    ensures T(a) == T(b) <==> a == b
    ensures NT(a) == NT(b) <==> a == b
  {
  }
}
