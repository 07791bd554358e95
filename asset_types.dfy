/** Asset records and asset form data of types/asset.ts. */
module AssetTypes {

  datatype Category = Computer | Server | Mobile | Network | Software | Other

  datatype AssetStatus = Active | Inactive | Maintenance | Retired

  datatype Asset = Asset(
    id: string,
    assetId: string,
    name: string,
    category: Category,
    brand: string,
    model: string,
    serialNumber: string,
    purchaseDate: string,
    endOfLifeDate: string,
    warrantyExpiry: string,
    status: AssetStatus,
    location: string,
    assignedTo: string,
    purchasePrice: real,
    currentValue: real,
    notes: string,
    createdAt: string,
    updatedAt: string)

  /** An asset without `id`, `createdAt` and `updatedAt`: what the asset form submits. */
  datatype AssetFormData = AssetFormData(
    assetId: string,
    name: string,
    category: Category,
    brand: string,
    model: string,
    serialNumber: string,
    purchaseDate: string,
    endOfLifeDate: string,
    warrantyExpiry: string,
    status: AssetStatus,
    location: string,
    assignedTo: string,
    purchasePrice: real,
    currentValue: real,
    notes: string)

  /** The form fields of an asset (the `Omit<Asset, ...>` projection). */
  function FormOf(a: Asset): AssetFormData
  {
    AssetFormData(a.assetId, a.name, a.category, a.brand, a.model, a.serialNumber,
                  a.purchaseDate, a.endOfLifeDate, a.warrantyExpiry, a.status,
                  a.location, a.assignedTo, a.purchasePrice, a.currentValue, a.notes)
  }

  /** The asset built by the add handler from the form, a fresh id and the current time. */
  function NewAsset(form: AssetFormData, id: string, now: string): (a: Asset)
    ensures FormOf(a) == form
    ensures a.id == id && a.createdAt == now && a.updatedAt == now
  {
    Asset(id, form.assetId, form.name, form.category, form.brand, form.model, form.serialNumber,
          form.purchaseDate, form.endOfLifeDate, form.warrantyExpiry, form.status,
          form.location, form.assignedTo, form.purchasePrice, form.currentValue, form.notes,
          now, now)
  }

  /** `{ ...asset, ...form, updatedAt: now }`: the form overrides every field it has. */
  function EditedAsset(a: Asset, form: AssetFormData, now: string): (r: Asset)
    ensures FormOf(r) == form
    ensures r.id == a.id && r.createdAt == a.createdAt && r.updatedAt == now
  {
    NewAsset(form, a.id, now).(createdAt := a.createdAt)
  }

  /** Selects the assets with the given id. */
  function WithId(id: string): Asset -> bool
  {
    (a: Asset) => a.id == id
  }

  /** Selects the assets whose id differs from the given one. */
  function WithoutId(id: string): Asset -> bool
  {
    (a: Asset) => a.id != id
  }
}
