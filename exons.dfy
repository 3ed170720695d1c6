/** The two ABO amplicons the pipeline types, named "exon6" and "exon7" by every script. */
module Exons {

  datatype Exon = Exon6 | Exon7

}
