/**
 * `f64` values, kept symbolic. Each constructor names the operation that
 * produced the value; nothing is assumed about what number it denotes, and no
 * property of the model depends on it. Two different terms may well denote the
 * same float.
 */
module Floats {

  datatype F64 =
    | Parsed(text: string)     // the value of `f64::from_str(text)`
    | Pi                       // `std::f64::consts::PI`
    | OfInt(i: int)            // `i as f64`
    | Sum(xs: seq<F64>)        // `xs.iter().sum()`
    | Product(xs: seq<F64>)    // `xs.iter().product()`
    | Negated(x: F64)          // `x * -1.0`
    | Quotient(xs: seq<F64>)   // the `/` fold: from 0.0, take x while the accumulator
                               // equals 0.0, divide by x afterwards
}
