/** The product record of `modelos/produto.rs`. */
module Modelos {

  /** Rust's `u32`. */
  newtype u32 = x: int | 0 <= x < 0x1_0000_0000

  const U32_MAX: int := 0xFFFF_FFFF

  /** A catalogue product. The `f64` price is not part of this model: no
      operation of the core reads it. */
  datatype Produto = Produto(
    id: u32,
    nome: string,
    marca: string,
    categoria: string,
    descricao: string)
}
