/** The building blocks of the JPA Criteria queries: a case-insensitive LIKE
    on a nullable column, the `%value%` pattern the filters build, and the
    AND of a list of predicates. */
module Criteria {
  import opened Wrappers
  import opened Text

  /** `lower(column) LIKE pattern`. Under SQL's three-valued logic a NULL
      column never satisfies it. */
  predicate LikeLower(column: Option<string>, pattern: string) {
    column.Some? && LikeMatch(ToLower(column.value), pattern)
  }

  /** The pattern `"%" + value.toLowerCase() + "%"`. */
  function ContainsPattern(value: string): string {
    "%" + ToLower(value) + "%"
  }

  /** `criteriaBuilder.and(...)` over the collected predicates; an empty list
      puts no WHERE clause on the query, so every row passes. */
  predicate Conjunction<C, T>(cs: seq<C>, holds: (C, T) -> bool, x: T) {
    forall i :: 0 <= i < |cs| ==> holds(cs[i], x)
  }

  /** `predicates.add(c)`: the longer list demands what the shorter one did
      and `c` besides. */
  method Add<C, T(!new)>(predicates: seq<C>, holds: (C, T) -> bool, c: C) returns (r: seq<C>)
    ensures |r| == |predicates| + 1 && r[..|predicates|] == predicates && r[|predicates|] == c
    ensures forall x :: Conjunction(r, holds, x) <==> Conjunction(predicates, holds, x) && holds(c, x)
  {
    r := predicates + [c];
    forall x ensures Conjunction(r, holds, x) <==> Conjunction(predicates, holds, x) && holds(c, x) {
      if Conjunction(predicates, holds, x) && holds(c, x) {
        forall i | 0 <= i < |r| ensures holds(r[i], x) {
          if i < |predicates| { assert r[i] == predicates[i]; }
        }
      }
      if Conjunction(r, holds, x) {
        forall i | 0 <= i < |predicates| ensures holds(predicates[i], x) {
          assert r[i] == predicates[i];
        }
        assert r[|predicates|] == c;
      }
    }
  }

  /** For a value without LIKE wildcards, the pattern `%value%` is a
      case-insensitive substring test, and it fails on NULL. */
  lemma ContainsPatternMeans(column: Option<string>, value: string)
    requires NoWildcards(value)
    ensures LikeLower(column, ContainsPattern(value)) <==>
            column.Some? && Contains(ToLower(column.value), ToLower(value))
  {
    LowerKeepsNoWildcards(value);
    if column.Some? {
      LikeContains(ToLower(column.value), ToLower(value));
    }
  }
}
