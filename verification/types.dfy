/** The records of the point-of-sale domain that the modelled logic reads or
    writes, field for field as the application declares them. Optional
    fields (`x?: T`) are `Option`s; an optional id that is compared with
    `===` is a `MaybeId`, so that `null` and `undefined` stay apart.
    Timestamps are ISO strings as the application stores them. */
module Types {
  import opened Common

  type Id = string

  datatype Address = Address(
    rua: string, numero: string, complemento: Option<string>,
    bairro: string, cidade: string, estado: string, cep: string)

  datatype Company = Company(id: Id, nome: string, cnpj: string, razaoSocial: string,
                             email: string, telefone: Option<string>)

  datatype Store = Store(id: Id, empresaId: Id, nome: string, codigo: string, ativa: bool)

  datatype User = User(id: Id, empresaId: Id, email: string, nome: string, ativo: bool)

  datatype Category = Category(
    id: Id, empresaId: Id, nome: string, descricao: Option<string>,
    cor: Option<string>, ativa: bool)

  datatype Product = Product(
    id: Id, empresaId: Id, categoriaId: Option<Id>, nome: string,
    codigoInterno: Option<string>, codigoBarras: Option<string>,
    precoCusto: Option<real>, precoVenda: real, ativo: bool)

  datatype ProductVariant = ProductVariant(
    id: Id, produtoId: Id, nome: string, codigoBarras: Option<string>,
    precoVenda: Option<real>, ativo: bool)

  /** On-hand quantity of one (store, product, variant) triple. */
  datatype Stock = Stock(
    id: Id, lojaId: Id, produtoId: Id, varianteId: MaybeId,
    quantidade: real, quantidadeMinima: Option<real>, quantidadeMaxima: Option<real>,
    updatedAt: string)

  datatype StockMovementType = Entrada | Saida | Ajuste | Transferencia
  datatype StockReferenceType = Venda | Compra | AjusteManual | RefTransferencia

  /** One audit entry for a change of on-hand quantity. */
  datatype StockMovement = StockMovement(
    lojaId: Id, produtoId: Id, varianteId: MaybeId, usuarioId: Id,
    tipo: StockMovementType, quantidade: real,
    quantidadeAnterior: real, quantidadePosterior: real,
    motivo: Option<string>, referenciaTipo: Option<StockReferenceType>,
    createdAt: string, updatedAt: string)

  datatype DocumentType = Cpf | Cnpj

  datatype Customer = Customer(
    id: Id, empresaId: Id, nome: string, tipoDocumento: DocumentType,
    documento: Option<string>, email: Option<string>, telefone: Option<string>,
    celular: Option<string>, endereco: Option<Address>, dataNascimento: Option<string>,
    limiteCredito: Option<real>, observacoes: Option<string>, ativo: bool,
    createdAt: string, updatedAt: string)

  datatype SaleStatus = Aberta | Finalizada | Cancelada
  datatype DiscountType = Percentual | Valor
  datatype PaymentMethod = Dinheiro | Pix | Credito | Debito | Fiado

  datatype Sale = Sale(
    id: Id, lojaId: Id, usuarioId: Id, clienteId: Option<Id>, numero: int,
    status: SaleStatus, subtotal: real, descontoTipo: Option<DiscountType>,
    descontoValor: Option<real>, total: real, observacoes: Option<string>,
    createdAt: string, updatedAt: string)

  datatype SaleItem = SaleItem(
    id: Id, vendaId: Id, produtoId: Id, varianteId: MaybeId, quantidade: real,
    precoUnitario: real, precoCusto: Option<real>, descontoTipo: Option<DiscountType>,
    descontoValor: Option<real>, subtotal: real, createdAt: string)

  datatype Payment = Payment(
    id: Id, vendaId: Id, formaPagamento: PaymentMethod, valor: real,
    troco: Option<real>, createdAt: string)

  /** One line of the checkout cart; `subtotal` is stored, not derived. */
  datatype CartItem = CartItem(
    id: Id, produtoId: Id, varianteId: MaybeId, produto: Product,
    variante: Option<ProductVariant>, quantidade: real, precoUnitario: real,
    descontoTipo: Option<DiscountType>, descontoValor: Option<real>, subtotal: real)
}
