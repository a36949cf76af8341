/** The paper record the classification API returns and the certificate is issued for
    (types/paper.ts). */
module PaperTypes {

  import opened Wrappers

  /** `Tahun` is `string | number` in the source; it is only ever displayed. */
  datatype Year = YearText(text: string) | YearNumber(number: int)

  /** One classified research paper. `Sdgs` is optional in the source: the API may omit it. */
  datatype Paper = Paper(
    Judul: string,                 // title of the paper
    Penulis: string,               // author(s), printed verbatim as the certified name
    Tahun: Year,                   // year of publication
    Source: string,                // where it was published
    Abstrak: string,               // abstract
    Sdgs: Option<seq<string>>      // matched goals, e.g. "SDGS3", in the API's order
  )
}
