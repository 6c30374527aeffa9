/** The Jakarta Bean Validation constraints the two request DTOs use, as
    predicates on a nullable field. As the standard says, `null` satisfies
    `@Size`, `@Pattern`, `@Min`, `@DecimalMin` and `@Digits`; only `@NotNull`
    and `@NotBlank` reject it. */
module BeanValidation {
  import opened Wrappers
  import opened JavaLang
  import opened Patrones

  /** `@NotNull` */
  predicate NotNull<T>(o: Option<T>) { o.Some? }

  /** `@NotBlank`: not null, and something is left after `trim()`. */
  predicate NotBlank(o: Option<string>) { o.Some? && !IsBlank(o.value) }

  /** `@Size(max = n)` on a string. */
  predicate SizeMax(o: Option<string>, n: nat) { o.None? || |o.value| <= n }

  /** `@Pattern(regexp = ...)`: the whole value matches. */
  predicate PatternMatches(o: Option<string>, p: Patron) { o.None? || Coincide(p, o.value) }

  /** `@Min(value = n)` on an `Integer`. */
  predicate Min(o: Option<int>, n: int) { o.None? || o.value >= n }

  /** `@DecimalMin(value = ...)` (inclusive) on an amount held in cents. */
  predicate DecimalMinCents(o: Option<int>, cents: int) { o.None? || o.value >= cents }

  /** `@Digits(integer = i, fraction = 2)` on an amount held in cents: at most
      `i` digits before the decimal point (two after it is built into cents). */
  predicate DigitsCents(o: Option<int>, integer: nat)
  {
    o.None? || -(Pow10(integer) * 100) < o.value < Pow10(integer) * 100
  }
}
